/** Liveness: `myjit/flow-analysis.h`, as built for AMD64 and ARM. */
module Flow {
  import opened Ops

  /** One function: operations lo to hi of the list.  `infos` gives the declared
      arguments a PROLOG points to. */
  datatype Fn = Fn(ops: seq<Op>, infos: map<int, seq<ArgInfo>>, lo: nat, hi: nat)

  function Info(f: Fn): seq<ArgInfo>
    requires f.lo < |f.ops| && f.ops[f.lo].a1 in f.infos
  {
    f.infos[f.ops[f.lo].a1]
  }

  /** Argument registers a GETARG reads without naming them. */
  function Implicit(info: seq<ArgInfo>, op: Op): set<int>
    requires op.code == GETARG ==> 0 <= op.a1 < |info|
  {
    if op.code != GETARG then {}
    else if !info[op.a1].isFloat then {ArgReg(op.a1)}
    else {FloatArgReg(op.a1)} + if info[op.a1].overflow then {MkRegEx(FLOAT, CLASS_ARG, op.a1)} else {}
  }

  /** Argument registers a PROLOG fills. */
  function Filled(info: seq<ArgInfo>): set<int> {
    set k | 0 <= k < |info| :: if info[k].isFloat then FloatArgReg(k) else ArgReg(k)
  }

  predicate OpOk(info: seq<ArgInfo>, op: Op) {
    && (op.code == GETARG ==> 0 <= op.a1 < |info| && Implicit(info, op) !! op.Defs())
    && (op.code == PROLOG ==> op.Uses() == {})
  }

  /** A function as the program hands it over. */
  predicate FnOk(f: Fn) {
    && f.lo < f.hi <= |f.ops|
    && f.ops[f.lo].code == PROLOG && f.ops[f.lo].a1 in f.infos
    && (f.hi < |f.ops| ==> f.ops[f.hi].code == PROLOG)
    && (forall i :: f.lo < i < f.hi ==> f.ops[i].code != PROLOG)
    && (forall i :: f.lo <= i < f.hi ==> OpOk(Info(f), f.ops[i]))
    && (forall i :: f.lo <= i < f.hi && IsRef(f.ops[i]) ==> f.ops[i].jmp.Some?)
    && (forall i :: f.lo <= i < f.hi && f.ops[i].jmp.Some? ==> f.ops[i].jmp.value < |f.ops|)
  }

  predicate In(f: Fn, i: int) {
    f.lo <= i < f.hi
  }

  /** Used on entry to operation i, and assigned by it. */
  function Gen(f: Fn, i: nat): set<int>
    requires FnOk(f) && In(f, i)
  {
    f.ops[i].Uses() + Implicit(Info(f), f.ops[i])
  }

  function Kill(f: Fn, i: nat): set<int>
    requires FnOk(f) && In(f, i)
  {
    f.ops[i].Defs() + if f.ops[i].code == PROLOG then Filled(Info(f)) else {}
  }

  // ---- Where control goes -----------------------------------------------------------

  predicate Returns(op: Op) {
    op.code == RET || op.code == FRET
  }

  predicate IsJmp(op: Op, mode: Mode) {
    op.code == JMP && op.mode == mode
  }

  /** Operations behind the code references of the function. */
  predicate RefTarget(f: Fn, t: nat)
    requires FnOk(f)
  {
    RefBefore(f, f.hi, t)
  }

  predicate RefBefore(f: Fn, n: nat, t: nat)
    requires n <= |f.ops|
  {
    exists k :: f.lo < k < n && IsRef(f.ops[k]) && f.ops[k].jmp == Some(t)
  }

  predicate ToJmp(op: Op, t: nat) {
    !IsRef(op) && op.jmp == Some(t)
  }

  predicate ToNext(f: Fn, i: nat, t: nat)
    requires i < |f.ops|
  {
    t == i + 1 < |f.ops| && !IsJmp(f.ops[i], RegForm) && !IsJmp(f.ops[i], ImmForm)
  }

  /** The successors the analysis uses. */
  predicate Succ(f: Fn, i: nat, t: nat)
    requires FnOk(f) && In(f, i)
  {
    && t < |f.ops| && !Returns(f.ops[i])
    && (ToJmp(f.ops[i], t) || ToNext(f, i, t) || (IsJmp(f.ops[i], RegForm) && RefTarget(f, t)))
  }

  // ---- Liveness by paths ------------------------------------------------------------------

  /** The liveness sets of all operations. */
  datatype Sets = Sets(into: seq<set<int>>, out: seq<set<int>>)

  predicate SetsOk(f: Fn, s: Sets) {
    |s.into| == |f.ops| && |s.out| == |f.ops|
  }

  /** `path` runs along edges without assigning v and ends where v is used, or
      leaves the function for an operation that has v in its set. */
  ghost predicate UsePath(f: Fn, beyond: seq<set<int>>, path: seq<nat>, v: int)
    requires FnOk(f) && |beyond| == |f.ops|
  {
    && |path| > 0 && (forall k :: 0 <= k < |path| ==> path[k] < |f.ops|)
    && (forall k :: 0 <= k < |path| - 1 ==> In(f, path[k]) && Succ(f, path[k], path[k + 1]) && v !in Kill(f, path[k]))
    && (var last := path[|path| - 1]; if In(f, last) then v in Gen(f, last) else v in beyond[last])
  }

  ghost predicate Live(f: Fn, beyond: seq<set<int>>, i: nat, v: int)
    requires FnOk(f) && |beyond| == |f.ops|
  {
    exists path :: UsePath(f, beyond, path, v) && path[0] == i
  }

  lemma LiveHere(f: Fn, beyond: seq<set<int>>, i: nat, v: int)
    requires FnOk(f) && |beyond| == |f.ops| && i < |f.ops|
    requires if In(f, i) then v in Gen(f, i) else v in beyond[i]
    ensures Live(f, beyond, i, v)
  {
    assert UsePath(f, beyond, [i], v);
  }

  lemma LiveBefore(f: Fn, beyond: seq<set<int>>, i: nat, t: nat, v: int)
    requires FnOk(f) && |beyond| == |f.ops| && In(f, i) && Succ(f, i, t)
    requires Live(f, beyond, t, v) && v !in Kill(f, i)
    ensures Live(f, beyond, i, v)
  {
    var path :| UsePath(f, beyond, path, v) && path[0] == t;
    var longer := [i] + path;
    forall k | 0 <= k < |longer| - 1
      ensures In(f, longer[k]) && Succ(f, longer[k], longer[k + 1]) && v !in Kill(f, longer[k])
    {
      assert k > 0 ==> longer[k] == path[k - 1];
    }
    assert UsePath(f, beyond, longer, v);
  }

  // ---- One operation ---------------------------------------------------------------------

  /** What flows out of operation i: what did, and what its successors need. */
  ghost predicate OutStep(f: Fn, i: nat, s: Sets, out: set<int>)
    requires FnOk(f) && SetsOk(f, s) && In(f, i)
  {
    forall v :: v in out <==> !Returns(f.ops[i]) && (v in s.out[i] || Flows(f, i, s, v))
  }

  ghost predicate Flows(f: Fn, i: nat, s: Sets, v: int)
    requires FnOk(f) && SetsOk(f, s) && In(f, i)
  {
    exists t: nat :: Succ(f, i, t) && v in s.into[t]
  }

  function InStep(f: Fn, i: nat, into: set<int>, out: set<int>): set<int>
    requires FnOk(f) && In(f, i)
  {
    into + out - f.ops[i].Defs() + f.ops[i].Uses() - if f.ops[i].code == PROLOG then Filled(Info(f)) else {}
  }

  /** Where the code references of the function lead (`initialize_code_refs`). */
  method CodeRefs(f: Fn) returns (refs: seq<nat>)
    requires FnOk(f)
    ensures RefsOk(f, refs)
  {
    hide OpOk;
    refs := [];
    for k := f.lo + 1 to f.hi
      invariant forall t: nat :: t in refs <==> RefBefore(f, k, t)
    {
      if IsRef(f.ops[k]) {
        refs := refs + [f.ops[k].jmp.value];
      }
    }
  }

  ghost predicate RefsOk(f: Fn, refs: seq<nat>)
    requires FnOk(f)
  {
    forall t: nat :: t in refs <==> RefTarget(f, t)
  }

  lemma RefsInRange(f: Fn, refs: seq<nat>, k: nat)
    requires FnOk(f) && RefsOk(f, refs) && k < |refs|
    ensures refs[k] < |f.ops|
  {
    assert refs[k] in refs;
  }

  /** `jit_set_addall`, over the targets of code references. */
  method AddRefs(f: Fn, liveIn: array<set<int>>, refs: seq<nat>, before: set<int>) returns (out: set<int>)
    requires FnOk(f) && liveIn.Length == |f.ops| && RefsOk(f, refs)
    ensures forall v :: v in out <==> v in before || exists t: nat :: t < |f.ops| && RefTarget(f, t) && v in liveIn[t]
  {
    out := before;
    for k := 0 to |refs|
      invariant forall v :: v in out <==> v in before || exists t: nat :: t < |f.ops| && t in refs[..k] && v in liveIn[t]
    {
      RefsInRange(f, refs, k);
      assert refs[..k + 1] == refs[..k] + [refs[k]];
      out := out + liveIn[refs[k]];
    }
    assert refs[..|refs|] == refs;
  }

  /** What flows out to the successors of operation i. */
  method FlowOut(f: Fn, i: nat, liveIn: array<set<int>>, refs: seq<nat>, before: set<int>) returns (out: set<int>)
    requires FnOk(f) && In(f, i) && liveIn.Length == |f.ops| && RefsOk(f, refs)
    ensures forall v :: v in out <==>
      !Returns(f.ops[i]) && (v in before || exists t: nat :: Succ(f, i, t) && v in liveIn[t])
  {
    hide OpOk, RefTarget;
    var op := f.ops[i];
    out := before;
    if op.jmp.Some? && !IsRef(op) {
      out := out + liveIn[op.jmp.value];
    }
    if IsJmp(op, RegForm) {
      out := AddRefs(f, liveIn, refs, out);
    } else if IsJmp(op, ImmForm) {
    } else if Returns(op) {
      out := {};
    } else if i + 1 < |f.ops| {
      out := out + liveIn[i + 1];
    }
  }

  /** What operation i itself needs on entry. */
  method FlowIn(f: Fn, i: nat, into: set<int>, out: set<int>) returns (r: set<int>)
    requires FnOk(f) && In(f, i)
    ensures r == InStep(f, i, into, out)
  {
    var op := f.ops[i];
    r := into + out;
    for j := 0 to 3
      invariant r == into + out - set k | 0 <= k < j && op.T(k) == TREG :: op.A(k)
    {
      if op.T(j) == TREG {
        r := r - {op.A(j)};
      }
    }
    for j := 0 to 3
      invariant r == into + out - op.Defs() + set k | 0 <= k < j && op.T(k) == REG :: op.A(k)
    {
      if op.T(j) == REG {
        r := r + {op.A(j)};
      }
    }
    if op.code == PROLOG {
      var info := Info(f);
      ghost var first := r;
      for k := 0 to |info|
        invariant r == first - Filled(info[..k])
      {
        assert Filled(info[..k + 1]) == Filled(info[..k]) + {if info[k].isFloat then FloatArgReg(k) else ArgReg(k)} by {
          FilledMore(info, k);
        }
        r := r - {if info[k].isFloat then FloatArgReg(k) else ArgReg(k)};
      }
      assert info[..|info|] == info;
    }
  }

  lemma FilledMore(info: seq<ArgInfo>, n: nat)
    requires n < |info|
    ensures Filled(info[..n + 1]) == Filled(info[..n]) + {if info[n].isFloat then FloatArgReg(n) else ArgReg(n)}
  {
    var a, b := info[..n + 1], info[..n];
    assert forall k :: 0 <= k < n ==> a[k] == b[k];
    assert a[n] == info[n];
    assert (if a[n].isFloat then FloatArgReg(n) else ArgReg(n)) in Filled(a);
    forall v | v in Filled(b)
      ensures v in Filled(a)
    {
      var k :| 0 <= k < |b| && v == if b[k].isFloat then FloatArgReg(k) else ArgReg(k);
      assert v == if a[k].isFloat then FloatArgReg(k) else ArgReg(k);
    }
  }

  // ---- To the fixed point ------------------------------------------------------------------

  /** `flw_analyze_op` as a relation between the sets before and after. */
  ghost predicate Stepped(f: Fn, i: nat, s: Sets, t: Sets)
    requires FnOk(f) && SetsOk(f, s) && In(f, i)
  {
    && SetsOk(f, t) && OutStep(f, i, s, t.out[i])
    && t.out == s.out[i := t.out[i]] && t.into == s.into[i := InStep(f, i, s.into[i], t.out[i])]
  }

  ghost function Snapshot(liveIn: array<set<int>>, liveOut: array<set<int>>): Sets
    reads liveIn, liveOut
  {
    Sets(liveIn[..], liveOut[..])
  }

  /** `flw_analyze_op`: the sets of one operation, and whether a size changed. */
  method AnalyzeOp(f: Fn, i: nat, liveIn: array<set<int>>, liveOut: array<set<int>>, refs: seq<nat>, changed: bool) returns (r: bool)
    requires FnOk(f) && In(f, i) && RefsOk(f, refs)
    requires liveIn != liveOut && liveIn.Length == liveOut.Length == |f.ops|
    modifies liveIn, liveOut
    ensures Stepped(f, i, old(Snapshot(liveIn, liveOut)), Snapshot(liveIn, liveOut))
    ensures r == (changed || |liveOut[i]| != |old(liveOut[i])| || |liveIn[i]| != |old(liveIn[i])|)
  {
    var outSize, inSize := |liveOut[i]|, |liveIn[i]|;
    var out := FlowOut(f, i, liveIn, refs, liveOut[i]);
    var into := FlowIn(f, i, liveIn[i], out);
    ghost var s := Snapshot(liveIn, liveOut);
    assert forall v :: (exists t: nat :: Succ(f, i, t) && v in liveIn[t]) <==> Flows(f, i, s, v);
    liveOut[i], liveIn[i] := out, into;
    r := changed || outSize != |out| || inSize != |into|;
  }

  /** What holds between operations of the analysis. */
  ghost predicate Justified(f: Fn, beyond: seq<set<int>>, s: Sets)
    requires FnOk(f) && SetsOk(f, s) && |beyond| == |f.ops|
  {
    && (forall i :: 0 <= i < |f.ops| && !In(f, i) ==> s.into[i] == beyond[i])
    && (forall i :: In(f, i) ==> JustifiedAt(f, beyond, s, i))
  }

  ghost predicate JustifiedAt(f: Fn, beyond: seq<set<int>>, s: Sets, i: nat)
    requires FnOk(f) && SetsOk(f, s) && |beyond| == |f.ops| && In(f, i)
  {
    && Gen(f, i) <= s.into[i]
    && (Returns(f.ops[i]) ==> s.out[i] == {})
    && (forall v :: v in s.into[i] ==> Live(f, beyond, i, v) && (v in Kill(f, i) ==> v in Gen(f, i)))
    && (forall v :: v in s.out[i] ==> FlowsLive(f, beyond, i, v))
  }

  ghost predicate FlowsLive(f: Fn, beyond: seq<set<int>>, i: nat, v: int)
    requires FnOk(f) && |beyond| == |f.ops| && In(f, i)
  {
    exists t: nat :: Succ(f, i, t) && Live(f, beyond, t, v)
  }

  /** Sets only grow. */
  ghost predicate Grown(s: Sets, t: Sets)
    requires |s.into| == |t.into| && |s.out| == |t.out|
  {
    && (forall i :: 0 <= i < |s.into| ==> s.into[i] <= t.into[i])
    && (forall i :: 0 <= i < |s.out| ==> s.out[i] <= t.out[i])
  }

  /** At one operation, what was live stays live. */
  lemma StepGrows(f: Fn, i: nat, s: Sets, t: Sets)
    requires FnOk(f) && SetsOk(f, s) && In(f, i) && Stepped(f, i, s, t)
    requires Returns(f.ops[i]) ==> s.out[i] == {}
    requires forall v :: v in s.into[i] && v in Kill(f, i) ==> v in Gen(f, i)
    requires Gen(f, i) <= s.into[i]
    ensures Grown(s, t) && (Returns(f.ops[i]) ==> t.out[i] == {})
    ensures Gen(f, i) <= t.into[i] && forall v :: v in t.into[i] && v in Kill(f, i) ==> v in Gen(f, i)
  {
    if Returns(f.ops[i]) {
      assert forall v :: v !in t.out[i];
    } else {
      forall v | v in s.out[i]
        ensures v in t.out[i]
      {
        assert OutStep(f, i, s, t.out[i]);
      }
    }
    assert OpOk(Info(f), f.ops[i]);
    assert s.into[i] <= t.into[i];
  }

  /** Every step keeps the sets sound, and they only grow, also at PROLOG and RET. */
  lemma StepKeepsSound(f: Fn, beyond: seq<set<int>>, i: nat, s: Sets, t: Sets)
    requires FnOk(f) && SetsOk(f, s) && |beyond| == |f.ops| && In(f, i)
    requires Justified(f, beyond, s) && Stepped(f, i, s, t)
    ensures Justified(f, beyond, t) && Grown(s, t)
  {
    assert JustifiedAt(f, beyond, s, i);
    StepGrows(f, i, s, t);
    forall v | v in t.out[i]
      ensures FlowsLive(f, beyond, i, v)
    {
      if v !in s.out[i] {
        var k: nat :| Succ(f, i, k) && v in s.into[k];
        if In(f, k) {
          assert JustifiedAt(f, beyond, s, k);
        } else {
          LiveHere(f, beyond, k, v);
        }
      }
    }
    forall v | v in t.into[i]
      ensures Live(f, beyond, i, v)
    {
      if v in Gen(f, i) {
        LiveHere(f, beyond, i, v);
      } else if v !in s.into[i] {
        var k: nat :| Succ(f, i, k) && Live(f, beyond, k, v);
        LiveBefore(f, beyond, i, k, v);
      }
    }
    assert JustifiedAt(f, beyond, t, i);
    forall j | In(f, j) && j != i
      ensures JustifiedAt(f, beyond, t, j)
    {
      assert JustifiedAt(f, beyond, s, j);
    }
  }

  /** Another round would change nothing. */
  ghost predicate Stable(f: Fn, s: Sets, from: nat)
    requires FnOk(f) && SetsOk(f, s)
  {
    forall i :: f.lo <= i < f.hi && from <= i ==> Stepped(f, i, s, s)
  }

  /** Liveness is exact: in a set exactly when some path needs it. */
  ghost predicate Exact(f: Fn, beyond: seq<set<int>>, s: Sets)
    requires FnOk(f) && SetsOk(f, s) && |beyond| == |f.ops|
  {
    forall i, v :: In(f, i) ==>
      && (v in s.into[i] <==> Live(f, beyond, i, v))
      && (v in s.out[i] <==> !Returns(f.ops[i]) && FlowsLive(f, beyond, i, v))
  }

  lemma {:induction false} StableHasPaths(f: Fn, beyond: seq<set<int>>, s: Sets, path: seq<nat>, v: int)
    requires FnOk(f) && SetsOk(f, s) && |beyond| == |f.ops|
    requires Justified(f, beyond, s) && Stable(f, s, f.lo) && UsePath(f, beyond, path, v)
    ensures v in s.into[path[0]]
  {
    hide OpOk, Kill, Gen, Live, Stepped, Succ, Returns;
    var i := path[0];
    if |path| == 1 {
      assert In(f, i) ==> JustifiedAt(f, beyond, s, i);
    } else {
      var rest := path[1..];
      assert In(f, path[0]) && Succ(f, path[0], path[1]) && v !in Kill(f, path[0]);
      assert UsePath(f, beyond, rest, v) by {
        assert forall k :: 0 <= k < |rest| ==> rest[k] == path[k + 1];
        assert rest[|rest| - 1] == path[|path| - 1];
      }
      StableHasPaths(f, beyond, s, rest, v);
      assert Stepped(f, i, s, s) && Flows(f, i, s, v);
      StableTakesOn(f, s, i, v);
    }
  }

  /** What flows out of an operation at the fixed point has flowed in. */
  lemma StableTakesOn(f: Fn, s: Sets, i: nat, v: int)
    requires FnOk(f) && SetsOk(f, s) && In(f, i) && Stepped(f, i, s, s) && Flows(f, i, s, v) && v !in Kill(f, i)
    ensures v in s.into[i]
  {
    hide OpOk, Flows;
    assert !Returns(f.ops[i]) by { FlowsOn(f, s, i, v); }
  }

  lemma FlowsOn(f: Fn, s: Sets, i: nat, v: int)
    requires FnOk(f) && SetsOk(f, s) && In(f, i) && Flows(f, i, s, v)
    ensures !Returns(f.ops[i])
  {
    hide OpOk;
  }

  lemma StableIsExact(f: Fn, beyond: seq<set<int>>, s: Sets)
    requires FnOk(f) && SetsOk(f, s) && |beyond| == |f.ops|
    requires Justified(f, beyond, s) && Stable(f, s, f.lo)
    ensures Exact(f, beyond, s)
  {
    forall i, v | In(f, i)
      ensures v in s.into[i] <==> Live(f, beyond, i, v)
      ensures v in s.out[i] <==> !Returns(f.ops[i]) && FlowsLive(f, beyond, i, v)
    {
      assert JustifiedAt(f, beyond, s, i);
      if Live(f, beyond, i, v) {
        var path :| UsePath(f, beyond, path, v) && path[0] == i;
        StableHasPaths(f, beyond, s, path, v);
      }
      if !Returns(f.ops[i]) && FlowsLive(f, beyond, i, v) {
        var t: nat :| Succ(f, i, t) && Live(f, beyond, t, v);
        var path :| UsePath(f, beyond, path, v) && path[0] == t;
        StableHasPaths(f, beyond, s, path, v);
        assert Stepped(f, i, s, s) && Flows(f, i, s, v);
      }
    }
  }

  // ---- Why the loop ends ------------------------------------------------------------------------

  /** Every register that can be live. */
  function Registers(f: Fn, beyond: seq<set<int>>): set<int>
    requires FnOk(f) && |beyond| == |f.ops|
  {
    (set i, v | f.lo <= i < f.hi && v in Gen(f, i) :: v) + (set i, v | 0 <= i < |beyond| && v in beyond[i] :: v)
  }

  /** What the sets do not hold yet. */
  ghost function Missing(f: Fn, beyond: seq<set<int>>, s: Sets): set<(int, bool, int)>
    requires FnOk(f) && SetsOk(f, s) && |beyond| == |f.ops|
  {
    (set i, v | f.lo <= i < f.hi && v in Registers(f, beyond) && v !in s.into[i] :: (i, true, v)) +
    (set i, v | f.lo <= i < f.hi && v in Registers(f, beyond) && v !in s.out[i] :: (i, false, v))
  }

  lemma LiveIsRegister(f: Fn, beyond: seq<set<int>>, i: nat, v: int)
    requires FnOk(f) && |beyond| == |f.ops| && Live(f, beyond, i, v)
    ensures v in Registers(f, beyond)
  {
    var path :| UsePath(f, beyond, path, v) && path[0] == i;
    var last := path[|path| - 1];
  }

  /** Only operations of the function are touched. */
  ghost predicate Elsewhere(f: Fn, s: Sets, t: Sets)
    requires FnOk(f) && SetsOk(f, s) && SetsOk(f, t)
  {
    forall i :: 0 <= i < |f.ops| && !In(f, i) ==> s.into[i] == t.into[i] && s.out[i] == t.out[i]
  }

  lemma LessMissing(f: Fn, beyond: seq<set<int>>, s: Sets, t: Sets)
    requires FnOk(f) && SetsOk(f, s) && SetsOk(f, t) && |beyond| == |f.ops|
    requires Justified(f, beyond, t) && Grown(s, t) && Elsewhere(f, s, t) && s != t
    ensures Missing(f, beyond, t) < Missing(f, beyond, s)
  {
    assert Missing(f, beyond, t) <= Missing(f, beyond, s);
    if Missing(f, beyond, s) <= Missing(f, beyond, t) {
      NothingNew(f, beyond, s, t);
      GrownFurther(s, t, s);
      assert false;
    }
  }

  lemma NothingNew(f: Fn, beyond: seq<set<int>>, s: Sets, t: Sets)
    requires FnOk(f) && SetsOk(f, s) && SetsOk(f, t) && |beyond| == |f.ops|
    requires Justified(f, beyond, t) && Elsewhere(f, s, t) && Missing(f, beyond, s) <= Missing(f, beyond, t)
    ensures Grown(t, s)
  {
    hide OpOk, Kill, Gen, Succ, Live, Registers;
    forall i, v | In(f, i) && v in t.into[i]
      ensures v in s.into[i]
    {
      assert JustifiedAt(f, beyond, t, i);
      LiveIsRegister(f, beyond, i, v);
      assert (i, true, v) !in Missing(f, beyond, t);
    }
    forall i, v | In(f, i) && v in t.out[i]
      ensures v in s.out[i]
    {
      assert JustifiedAt(f, beyond, t, i);
      var k: nat :| Succ(f, i, k) && Live(f, beyond, k, v);
      LiveIsRegister(f, beyond, k, v);
      assert (i, false, v) !in Missing(f, beyond, t);
    }
    assert forall i :: 0 <= i < |f.ops| ==> t.into[i] <= s.into[i] && t.out[i] <= s.out[i];
  }

  /** Comparing sizes is a sound test for change, since sets only grow. */
  lemma SameSizeSameSet(a: set<int>, b: set<int>)
    requires a <= b
    ensures |a| == |b| <==> a == b
  {
    if |a| == |b| {
      assert |b - a| == |b| - |a|;
    }
  }

  lemma SizesTell(f: Fn, i: nat, s: Sets, t: Sets)
    requires FnOk(f) && SetsOk(f, s) && In(f, i) && Stepped(f, i, s, t) && Grown(s, t)
    ensures |s.out[i]| == |t.out[i]| && |s.into[i]| == |t.into[i]| <==> s == t
  {
    SameSizeSameSet(s.out[i], t.out[i]);
    SameSizeSameSet(s.into[i], t.into[i]);
  }

  lemma GrownFurther(s: Sets, t: Sets, u: Sets)
    requires |s.into| == |t.into| == |u.into| && |s.out| == |t.out| == |u.out| && Grown(s, t) && Grown(t, u)
    ensures Grown(s, u) && (s == u ==> s == t)
  {
    if s == u {
      forall i | 0 <= i < |s.into| ensures s.into[i] == t.into[i] {
        assert s.into[i] <= t.into[i] <= u.into[i];
      }
      forall i | 0 <= i < |s.out| ensures s.out[i] == t.out[i] {
        assert s.out[i] <= t.out[i] <= u.out[i];
      }
      assert s.into == t.into && s.out == t.out;
    }
  }

  // ---- `analyze_function` -----------------------------------------------------------------------

  /** One backward pass over the function. */
  method Pass(f: Fn, liveIn: array<set<int>>, liveOut: array<set<int>>, refs: seq<nat>, ghost beyond: seq<set<int>>)
    returns (changed: bool)
    requires FnOk(f) && RefsOk(f, refs) && liveIn != liveOut && liveIn.Length == liveOut.Length == |f.ops| == |beyond|
    requires Justified(f, beyond, Snapshot(liveIn, liveOut))
    modifies liveIn, liveOut
    ensures var s, t := old(Snapshot(liveIn, liveOut)), Snapshot(liveIn, liveOut);
      && Justified(f, beyond, t) && Grown(s, t) && Elsewhere(f, s, t)
      && (changed <==> s != t) && (!changed ==> Stable(f, t, f.lo))
  {
    hide Justified, OutStep, InStep, Succ, Gen, Kill;
    ghost var s := Snapshot(liveIn, liveOut);
    changed := false;
    var i := f.hi;
    while i > f.lo
      invariant f.lo <= i <= f.hi
      invariant var t := Snapshot(liveIn, liveOut);
        && Justified(f, beyond, t) && Grown(s, t) && Elsewhere(f, s, t)
        && (changed <==> s != t) && (!changed ==> Stable(f, t, i))
    {
      i := i - 1;
      ghost var t := Snapshot(liveIn, liveOut);
      changed := AnalyzeOp(f, i, liveIn, liveOut, refs, changed);
      ghost var u := Snapshot(liveIn, liveOut);
      StepKeepsSound(f, beyond, i, t, u);
      SizesTell(f, i, t, u);
      GrownFurther(s, t, u);
    }
  }

  /** `analyze_function`: stops, with exact liveness. */
  method AnalyzeFunction(f: Fn, liveIn: array<set<int>>, liveOut: array<set<int>>, ghost beyond: seq<set<int>>)
    requires FnOk(f) && liveIn != liveOut && liveIn.Length == liveOut.Length == |f.ops| == |beyond|
    requires Justified(f, beyond, Snapshot(liveIn, liveOut))
    modifies liveIn, liveOut
    ensures var s, t := old(Snapshot(liveIn, liveOut)), Snapshot(liveIn, liveOut);
      Exact(f, beyond, t) && Stable(f, t, f.lo) && Justified(f, beyond, t) && Grown(s, t) && Elsewhere(f, s, t)
  {
    var refs := CodeRefs(f);
    ghost var s := Snapshot(liveIn, liveOut);
    var changed := Pass(f, liveIn, liveOut, refs, beyond);
    while changed
      invariant var t := Snapshot(liveIn, liveOut);
        && Justified(f, beyond, t) && Grown(s, t) && Elsewhere(f, s, t)
        && (!changed ==> Stable(f, t, f.lo))
      decreases Missing(f, beyond, Snapshot(liveIn, liveOut)), changed
    {
      ghost var t := Snapshot(liveIn, liveOut);
      changed := Pass(f, liveIn, liveOut, refs, beyond);
      ghost var u := Snapshot(liveIn, liveOut);
      GrownFurther(s, t, u);
      if t != u {
        LessMissing(f, beyond, t, u);
      }
    }
    StableIsExact(f, beyond, Snapshot(liveIn, liveOut));
  }

  // ---- `jit_flw_analysis` -------------------------------------------------------------------------

  // ---- What the sets hold for certain -------------------------------------------------------

  /** The argument a GETARG takes is live before it, and so is the second register of a
      floating-point argument that needs one. */
  lemma {:induction false} TakenIsLive(f: Fn, beyond: seq<set<int>>, s: Sets, i: nat)
    requires FnOk(f) && SetsOk(f, s) && |beyond| == |f.ops| && Exact(f, beyond, s) && In(f, i) && f.ops[i].code == GETARG
    ensures 0 <= f.ops[i].a1 < |Info(f)|
    ensures var k := f.ops[i].a1; var arg := Info(f)[k];
      && (!arg.isFloat ==> MkReg(INT, CLASS_ARG, k) in s.into[i])
      && (arg.isFloat ==> MkReg(FLOAT, CLASS_ARG, k) in s.into[i])
      && (arg.isFloat && arg.overflow ==> MkRegEx(FLOAT, CLASS_ARG, k) in s.into[i])
  {
    hide Live;
    forall v | v in Gen(f, i)
      ensures v in s.into[i]
    {
      LiveHere(f, beyond, i, v);
    }
  }

  /** Nothing is live after a return. */
  lemma {:induction false} NothingAfterReturn(f: Fn, beyond: seq<set<int>>, s: Sets, i: nat)
    requires FnOk(f) && SetsOk(f, s) && |beyond| == |f.ops| && Exact(f, beyond, s) && In(f, i)
    ensures f.ops[i].code == RET || f.ops[i].code == FRET ==> s.out[i] == {}
  {
    hide FlowsLive, Live;
    if f.ops[i].code == RET || f.ops[i].code == FRET {
      forall v
        ensures v !in s.out[i]
      {
      }
    }
  }

  /** No argument is live before the PROLOG, which fills them all. */
  lemma {:induction false} ArgumentsAreFilled(f: Fn, beyond: seq<set<int>>, s: Sets, k: nat)
    requires FnOk(f) && SetsOk(f, s) && |beyond| == |f.ops| && Exact(f, beyond, s) && k < |Info(f)|
    ensures (if Info(f)[k].isFloat then MkReg(FLOAT, CLASS_ARG, k) else MkReg(INT, CLASS_ARG, k)) !in s.into[f.lo]
  {
    var v := if Info(f)[k].isFloat then MkReg(FLOAT, CLASS_ARG, k) else MkReg(INT, CLASS_ARG, k);
    assert OpOk(Info(f), f.ops[f.lo]) && v in Filled(Info(f));
    forall path | UsePath(f, beyond, path, v)
      ensures path[0] != f.lo
    {
      assert |path| > 1 ==> v !in Kill(f, path[0]);
    }
  }

  /** Where the function that contains operation k ends. */
  function End(ops: seq<Op>, k: nat): (e: nat)
    requires k <= |ops|
    ensures k <= e <= |ops| && (e < |ops| ==> ops[e].code == PROLOG)
    ensures forall i :: k <= i < e ==> ops[i].code != PROLOG
    decreases |ops| - k
  {
    if k == |ops| || ops[k].code == PROLOG then k else End(ops, k + 1)
  }

  function FnFrom(ops: seq<Op>, infos: map<int, seq<ArgInfo>>, lo: nat): Fn
    requires lo < |ops|
  {
    Fn(ops, infos, lo, End(ops, lo + 1))
  }

  predicate StartsAt(ops: seq<Op>, lo: int) {
    0 <= lo < |ops| && ops[lo].code == PROLOG
  }

  /** Every function is as the program must hand it over, and GETARG is used in
      functions only. */
  ghost predicate ListOk(ops: seq<Op>, infos: map<int, seq<ArgInfo>>) {
    && (forall lo :: StartsAt(ops, lo) ==> FnOk(FnFrom(ops, infos, lo)))
    && (forall i :: 0 <= i < |ops| && ops[i].code == GETARG ==> exists lo :: lo < i && StartsAt(ops, lo))
  }

  /** The sets of a function before its analysis. */
  ghost predicate Fresh(f: Fn, s: Sets)
    requires FnOk(f) && SetsOk(f, s)
  {
    forall i :: In(f, i) ==> s.into[i] == Gen(f, i) && s.out[i] == {}
  }

  lemma FreshIsSound(f: Fn, s: Sets)
    requires FnOk(f) && SetsOk(f, s) && Fresh(f, s)
    ensures Justified(f, s.into, s)
  {
    forall i | In(f, i)
      ensures JustifiedAt(f, s.into, s, i)
    {
      forall v | v in s.into[i]
        ensures Live(f, s.into, i, v)
      {
        LiveHere(f, s.into, i, v);
      }
    }
  }

  /** The PROLOG that operation i belongs to, or -1. */
  function Start(ops: seq<Op>, i: int): (r: int)
    requires -1 <= i < |ops|
    ensures -1 <= r <= i && (r >= 0 ==> StartsAt(ops, r)) && forall k :: r < k <= i ==> ops[k].code != PROLOG
  {
    if i == -1 || ops[i].code == PROLOG then i else Start(ops, i - 1)
  }

  lemma StartIsFirst(ops: seq<Op>, lo: nat, i: nat)
    requires i < |ops| && StartsAt(ops, lo) && lo <= i < End(ops, lo + 1)
    ensures Start(ops, i) == lo
  {
  }

  lemma GetargInFunction(ops: seq<Op>, infos: map<int, seq<ArgInfo>>, i: nat)
    requires ListOk(ops, infos) && i < |ops| && ops[i].code == GETARG
    ensures var lo := Start(ops, i); lo >= 0 && In(FnFrom(ops, infos, lo), i)
  {
    var lo :| lo < i && StartsAt(ops, lo);
  }

  /** The function a GETARG at operation i refers to. */
  ghost predicate InfoKnown(ops: seq<Op>, infos: map<int, seq<ArgInfo>>, i: int, info: Option<seq<ArgInfo>>)
    requires ListOk(ops, infos) && -1 <= i < |ops|
  {
    Start(ops, i) >= 0 ==> info == Some(Info(FnFrom(ops, infos, Start(ops, i))))
  }

  method InitializeOp(ops: seq<Op>, infos: map<int, seq<ArgInfo>>, i: nat, info: Option<seq<ArgInfo>>)
    returns (into: set<int>, current: Option<seq<ArgInfo>>)
    requires ListOk(ops, infos) && i < |ops| && InfoKnown(ops, infos, i - 1, info)
    ensures InitiallyGen(ops, infos, i, into) && InfoKnown(ops, infos, i, current)
  {
    into, current := ops[i].Uses(), info;
    if ops[i].code == PROLOG {
      assert StartsAt(ops, i);
      current := Some(infos[ops[i].a1]);
    }
    if ops[i].code == GETARG {
      GetargInFunction(ops, infos, i);
      into := into + Implicit(current.value, ops[i]);
    }
  }

  /** `jit_flw_initialize`. */
  method Initialize(ops: seq<Op>, infos: map<int, seq<ArgInfo>>, liveIn: array<set<int>>, liveOut: array<set<int>>)
    requires ListOk(ops, infos) && liveIn != liveOut && liveIn.Length == liveOut.Length == |ops|
    modifies liveIn, liveOut
    ensures forall lo :: StartsAt(ops, lo) ==> Fresh(FnFrom(ops, infos, lo), Snapshot(liveIn, liveOut))
  {
    hide ListOk, InitiallyGen, Fresh, FnFrom;
    var info: Option<seq<ArgInfo>> := None;
    for i := 0 to |ops|
      invariant InfoKnown(ops, infos, i - 1, info)
      invariant forall k :: 0 <= k < i ==> liveOut[k] == {} && InitiallyGen(ops, infos, k, liveIn[k])
    {
      hide InfoKnown;
      var into;
      into, info := InitializeOp(ops, infos, i, info);
      liveIn[i], liveOut[i] := into, {};
    }
    InitiallyFresh(ops, infos, Snapshot(liveIn, liveOut));
  }

  lemma InitiallyFresh(ops: seq<Op>, infos: map<int, seq<ArgInfo>>, s: Sets)
    requires ListOk(ops, infos) && |s.into| == |s.out| == |ops|
    requires forall k :: 0 <= k < |ops| ==> s.out[k] == {} && InitiallyGen(ops, infos, k, s.into[k])
    ensures forall lo :: StartsAt(ops, lo) ==> Fresh(FnFrom(ops, infos, lo), s)
  {
    forall lo | StartsAt(ops, lo)
      ensures Fresh(FnFrom(ops, infos, lo), s)
    {
      forall i | In(FnFrom(ops, infos, lo), i)
        ensures s.into[i] == Gen(FnFrom(ops, infos, lo), i)
      {
        StartIsFirst(ops, lo, i);
        assert InitiallyGen(ops, infos, i, s.into[i]);
      }
    }
  }

  ghost predicate InitiallyGen(ops: seq<Op>, infos: map<int, seq<ArgInfo>>, i: nat, into: set<int>)
    requires ListOk(ops, infos) && i < |ops|
  {
    var lo := Start(ops, i);
    lo >= 0 && In(FnFrom(ops, infos, lo), i) ==> into == Gen(FnFrom(ops, infos, lo), i)
  }

  /** The sets of every function are exact; `beyond[lo]` is what the function that
      starts at lo saw of the others. */
  ghost predicate AllExact(ops: seq<Op>, infos: map<int, seq<ArgInfo>>, s: Sets, beyond: map<int, seq<set<int>>>, n: nat)
    requires ListOk(ops, infos) && |s.into| == |s.out| == |ops|
  {
    forall lo :: StartsAt(ops, lo) && lo < n ==>
      && lo in beyond && |beyond[lo]| == |ops|
      && Exact(FnFrom(ops, infos, lo), beyond[lo], s)
  }

  lemma ElsewhereKeeps(f: Fn, g: Fn, beyond: seq<set<int>>, s: Sets, t: Sets)
    requires FnOk(f) && FnOk(g) && f.ops == g.ops && f.hi <= g.lo && SetsOk(f, s) && SetsOk(f, t) && |beyond| == |f.ops|
    requires Elsewhere(g, s, t) && Exact(f, beyond, s)
    ensures Exact(f, beyond, t)
  {
    assert forall i :: In(f, i) ==> !In(g, i);
  }

  lemma FreshElsewhere(f: Fn, g: Fn, s: Sets, t: Sets)
    requires FnOk(f) && FnOk(g) && f.ops == g.ops && g.hi <= f.lo && SetsOk(f, s) && SetsOk(f, t)
    requires Elsewhere(g, s, t) && Fresh(f, s)
    ensures Fresh(f, t)
  {
    assert forall i :: In(f, i) ==> !In(g, i);
  }

  ghost predicate AllFresh(ops: seq<Op>, infos: map<int, seq<ArgInfo>>, s: Sets, n: nat)
    requires ListOk(ops, infos) && |s.into| == |s.out| == |ops|
  {
    forall lo :: StartsAt(ops, lo) && n <= lo ==> Fresh(FnFrom(ops, infos, lo), s)
  }

  /** One function of the list, the ones before it being done. */
  method AnalyzeOne(ops: seq<Op>, infos: map<int, seq<ArgInfo>>, lo: nat, hi: nat, liveIn: array<set<int>>, liveOut: array<set<int>>,
                    ghost beyond: map<int, seq<set<int>>>)
    returns (ghost more: map<int, seq<set<int>>>)
    requires ListOk(ops, infos) && liveIn != liveOut && liveIn.Length == liveOut.Length == |ops|
    requires StartsAt(ops, lo) && hi == End(ops, lo + 1)
    requires AllExact(ops, infos, Snapshot(liveIn, liveOut), beyond, lo) && AllFresh(ops, infos, Snapshot(liveIn, liveOut), lo)
    modifies liveIn, liveOut
    ensures AllExact(ops, infos, Snapshot(liveIn, liveOut), more, hi) && AllFresh(ops, infos, Snapshot(liveIn, liveOut), hi)
  {
    hide Exact, Justified, Stable, Grown, Missing;
    var f := FnFrom(ops, infos, lo);
    ghost var s := Snapshot(liveIn, liveOut);
    FreshIsSound(f, s);
    AnalyzeFunction(f, liveIn, liveOut, s.into);
    more := beyond[lo := s.into];
    ghost var t := Snapshot(liveIn, liveOut);
    forall k | StartsAt(ops, k) && k < hi
      ensures k in more && |more[k]| == |ops| && Exact(FnFrom(ops, infos, k), more[k], t)
    {
      if k < lo {
        EndsBefore(ops, k, lo);
        ElsewhereKeeps(FnFrom(ops, infos, k), f, beyond[k], s, t);
      }
    }
    forall k | StartsAt(ops, k) && hi <= k
      ensures Fresh(FnFrom(ops, infos, k), t)
    {
      FreshElsewhere(FnFrom(ops, infos, k), f, s, t);
    }
  }

  lemma EndsBefore(ops: seq<Op>, k: nat, lo: nat)
    requires StartsAt(ops, k) && StartsAt(ops, lo) && k < lo
    ensures End(ops, k + 1) <= lo
  {
  }

  method LastOf(ops: seq<Op>, first: nat) returns (op: nat)
    requires first < |ops|
    ensures op == End(ops, first + 1)
  {
    op := first + 1;
    while op < |ops| && ops[op].code != PROLOG
      invariant first < op <= |ops| && End(ops, op) == End(ops, first + 1)
    {
      op := op + 1;
    }
  }

  lemma NoneYet(ops: seq<Op>, infos: map<int, seq<ArgInfo>>, s: Sets)
    requires ListOk(ops, infos) && |s.into| == |s.out| == |ops|
    requires forall lo :: StartsAt(ops, lo) ==> Fresh(FnFrom(ops, infos, lo), s)
    ensures AllExact(ops, infos, s, map[], 0) && AllFresh(ops, infos, s, 0)
  {
  }

  lemma NoFunctionHere(ops: seq<Op>, infos: map<int, seq<ArgInfo>>, s: Sets, beyond: map<int, seq<set<int>>>, n: nat)
    requires ListOk(ops, infos) && |s.into| == |s.out| == |ops| && n < |ops| && ops[n].code != PROLOG
    requires AllExact(ops, infos, s, beyond, n) && AllFresh(ops, infos, s, n)
    ensures AllExact(ops, infos, s, beyond, n + 1) && AllFresh(ops, infos, s, n + 1)
  {
  }

  /** `jit_flw_analysis`. */
  method FlowAnalysis(ops: seq<Op>, infos: map<int, seq<ArgInfo>>, liveIn: array<set<int>>, liveOut: array<set<int>>)
    returns (ghost beyond: map<int, seq<set<int>>>)
    requires ListOk(ops, infos) && liveIn != liveOut && liveIn.Length == liveOut.Length == |ops|
    modifies liveIn, liveOut
    ensures AllExact(ops, infos, Snapshot(liveIn, liveOut), beyond, |ops|)
  {
    Initialize(ops, infos, liveIn, liveOut);
    beyond := map[];
    hide AllExact, AllFresh, ListOk;
    NoneYet(ops, infos, Snapshot(liveIn, liveOut));
    var op := 0;
    while op < |ops|
      invariant 0 <= op <= |ops|
      invariant AllExact(ops, infos, Snapshot(liveIn, liveOut), beyond, op) && AllFresh(ops, infos, Snapshot(liveIn, liveOut), op)
    {
      if ops[op].code == PROLOG {
        var last := LastOf(ops, op);
        beyond := AnalyzeOne(ops, infos, op, last, liveIn, liveOut, beyond);
        op := last;
      } else {
        NoFunctionHere(ops, infos, Snapshot(liveIn, liveOut), beyond, op);
        op := op + 1;
      }
    }
  }

  /** Control never leaves the function. */
  ghost predicate Closed(f: Fn)
    requires FnOk(f)
  {
    forall i: nat, t: nat :: In(f, i) && Succ(f, i, t) ==> In(f, t)
  }

  lemma {:induction false} PathStaysInside(f: Fn, here: seq<set<int>>, there: seq<set<int>>, path: seq<nat>, v: int)
    requires FnOk(f) && Closed(f) && |here| == |there| == |f.ops| && |path| > 0 && In(f, path[0])
    requires UsePath(f, here, path, v)
    ensures UsePath(f, there, path, v) && In(f, path[|path| - 1])
  {
    if |path| > 1 {
      var rest := path[1..];
      assert Succ(f, path[0], path[1]);
      assert forall k :: 0 <= k < |rest| ==> rest[k] == path[k + 1];
      PathStaysInside(f, here, there, rest, v);
    }
  }

  /** What other functions need does not matter to one that keeps control. */
  lemma ClosedLiveness(f: Fn, here: seq<set<int>>, there: seq<set<int>>, i: nat, v: int)
    requires FnOk(f) && Closed(f) && |here| == |there| == |f.ops| && In(f, i)
    ensures Live(f, here, i, v) <==> Live(f, there, i, v)
  {
    if path :| UsePath(f, here, path, v) && path[0] == i {
      PathStaysInside(f, here, there, path, v);
    }
    if path :| UsePath(f, there, path, v) && path[0] == i {
      PathStaysInside(f, there, here, path, v);
    }
  }
}
