/** The shape of an operation list: operands as operations are created with them,
    arguments put right before their call, jumps that land.  Every pass keeps it. */
module Shapes {
  import opened Ops
  import opened RegAlloc
  import opened Machine
  import opened Allocation
  import opened Rewrites
  import Flow
  import Fusion
  import Merging
  import StoreFold
  import UnusedAssign

  /** Integer code only, and nothing but the first operand is ever assigned. */
  predicate Plain(op: Op, info: seq<ArgInfo>) {
    && op.t1 != TREG && op.t2 != TREG
    && (op.code in {NOP, RET, JMP, PREPARE, PUTARG, CALL} ==> op.t0 != TREG)
    && op.code != FRET && (op.code == JMP ==> op.mode != Bare)
    && (op.code == GETARG ==> 0 <= op.a1 < |info| && !info[op.a1].isFloat)
  }

  /** Operands of the operations that can be fused. */
  predicate AluForm(op: Op) {
    op.code in {ADD, SUB, MUL, LSH, OR} && op.mode != Bare && !op.unsigned ==> Fusion.AluShape(op)
  }

  predicate OpShape(op: Op, info: seq<ArgInfo>) {
    && Plain(op, info) && Shaped(op, info) && OperandsOk(op) && Flow.OpOk(info, op)
    && StoreFold.StoreShape(op) && AluForm(op)
  }

  /** Arguments are put between PREPARE and CALL, and RETVAL follows the CALL. */
  predicate AdjacentAt(ops: seq<Op>, i: nat)
    requires i < |ops|
  {
    && (ops[i].code == RETVAL ==> 0 < i && ops[i - 1].code == CALL)
    && (ops[i].code in {PUTARG, CALL} ==> 0 < i && ops[i - 1].code in {PREPARE, PUTARG})
  }

  /** Jumps and code references lead to labels and patches. */
  predicate LandsAt(ops: seq<Op>, i: nat)
    requires i < |ops|
  {
    var op := ops[i];
    && (op.jmp.Some? ==> op.jmp.value < |ops|)
    && (Jumps(op) || IsRef(op) ==> op.jmp.Some? && IsLanding(ops[op.jmp.value].code))
  }

  predicate WellFormedAt(ops: seq<Op>, infos: map<int, seq<ArgInfo>>, i: nat)
    requires i < |ops|
  {
    && OpShape(ops[i], DeclaredAt(ops, infos, i)) && AdjacentAt(ops, i) && LandsAt(ops, i)
    && (ops[i].code == PROLOG ==> ops[i].a1 in infos)
  }

  /** A list as the program must build it, and as every pass leaves it. */
  ghost predicate ListShape(ops: seq<Op>, infos: map<int, seq<ArgInfo>>) {
    forall i :: 0 <= i < |ops| ==> WellFormedAt(ops, infos, i)
  }

  /** Every indirect jump leads to an operation right behind a FULL_SPILL. */
  ghost predicate SpillsStand(ops: seq<Op>, targets: set<nat>) {
    forall t :: t in targets ==> 0 < t < |ops| && ops[t - 1].code == FULL_SPILL
  }

  // ---- What the analysis asks for ---------------------------------------------------------

  lemma {:induction false} DeclaredInFunction(ops: seq<Op>, infos: map<int, seq<ArgInfo>>, lo: nat, i: nat)
    requires Flow.StartsAt(ops, lo) && ops[lo].a1 in infos && lo <= i < Flow.End(ops, lo + 1)
    ensures DeclaredAt(ops, infos, i) == Flow.Info(Flow.FnFrom(ops, infos, lo))
  {
    if i > lo {
      DeclaredInFunction(ops, infos, lo, i - 1);
    }
  }

  lemma ShapedFunction(ops: seq<Op>, infos: map<int, seq<ArgInfo>>, lo: nat)
    requires ListShape(ops, infos) && Flow.StartsAt(ops, lo)
    ensures Flow.FnOk(Flow.FnFrom(ops, infos, lo))
  {
    hide OpShape, AdjacentAt;
    var f := Flow.FnFrom(ops, infos, lo);
    assert WellFormedAt(ops, infos, lo);
    forall i | f.lo <= i < f.hi
      ensures Flow.OpOk(Flow.Info(f), ops[i]) && (ops[i].jmp.Some? ==> ops[i].jmp.value < |ops|)
      ensures IsRef(ops[i]) ==> ops[i].jmp.Some?
    {
      assert WellFormedAt(ops, infos, i);
      DeclaredInFunction(ops, infos, lo, i);
      assert Flow.OpOk(DeclaredAt(ops, infos, i), ops[i]) by { ShapeIsOk(ops[i], DeclaredAt(ops, infos, i)); }
    }
  }

  lemma ShapeIsOk(op: Op, info: seq<ArgInfo>)
    requires OpShape(op, info)
    ensures Flow.OpOk(info, op)
  {
  }

  lemma {:induction false} DeclaredSomewhere(ops: seq<Op>, infos: map<int, seq<ArgInfo>>, i: nat) returns (lo: nat)
    requires i < |ops| && DeclaredAt(ops, infos, i) != []
    ensures lo <= i && Flow.StartsAt(ops, lo)
  {
    lo := i;
    if ops[i].code != PROLOG {
      lo := DeclaredSomewhere(ops, infos, i - 1);
    }
  }

  /** The list is what the flow analysis expects. */
  lemma ShapedList(ops: seq<Op>, infos: map<int, seq<ArgInfo>>)
    requires ListShape(ops, infos)
    ensures Flow.ListOk(ops, infos)
  {
    hide ListShape, Flow.FnOk;
    forall lo | Flow.StartsAt(ops, lo)
      ensures Flow.FnOk(Flow.FnFrom(ops, infos, lo))
    {
      ShapedFunction(ops, infos, lo);
    }
    forall i | 0 <= i < |ops| && ops[i].code == GETARG
      ensures exists lo :: lo < i && Flow.StartsAt(ops, lo)
    {
      ShapeAt(ops, infos, i);
      var lo := DeclaredSomewhere(ops, infos, i);
    }
  }

  lemma ShapeAt(ops: seq<Op>, infos: map<int, seq<ArgInfo>>, i: nat)
    requires ListShape(ops, infos) && i < |ops|
    ensures WellFormedAt(ops, infos, i) && OpShape(ops[i], DeclaredAt(ops, infos, i))
  {
  }

  // ---- Rewriting in place -----------------------------------------------------------------

  /** Operations no rewriting pass touches. */
  predicate Fixed(code: Code) {
    code in {PROLOG, LABEL, PATCH, FULL_SPILL, JMP, RET, FRET, PREPARE, PUTARG, CALL} || MayBranch(code)
  }

  /** An operation, left alone or rewritten. */
  predicate Redone(op: Op, op': Op) {
    op' == op ||
    (op'.jmp == op.jmp && !Fixed(op.code) && !Fixed(op'.code) && op'.code !in {RETVAL, GETARG, REF_CODE, DATA_REF_CODE})
  }

  ghost predicate Rewritten(ops: seq<Op>, ops': seq<Op>) {
    |ops'| == |ops| && forall i :: 0 <= i < |ops| ==> Redone(ops[i], ops'[i])
  }

  lemma RewrittenOn(a: seq<Op>, b: seq<Op>, c: seq<Op>)
    requires Rewritten(a, b) && Rewritten(b, c)
    ensures Rewritten(a, c)
  {
    forall i | 0 <= i < |a|
      ensures Redone(a[i], c[i])
    {
      assert Redone(a[i], b[i]) && Redone(b[i], c[i]);
    }
  }

  lemma {:induction false} SameDeclared(ops: seq<Op>, ops': seq<Op>, infos: map<int, seq<ArgInfo>>, i: nat)
    requires Rewritten(ops, ops') && i < |ops|
    ensures DeclaredAt(ops', infos, i) == DeclaredAt(ops, infos, i)
  {
    assert Redone(ops[i], ops'[i]);
    if i > 0 {
      SameDeclared(ops, ops', infos, i - 1);
    }
  }

  /** Rewriting keeps the shape, if every operation it makes has one. */
  lemma RewrittenShape(ops: seq<Op>, ops': seq<Op>, infos: map<int, seq<ArgInfo>>)
    requires ListShape(ops, infos) && Rewritten(ops, ops')
    requires forall i :: 0 <= i < |ops| ==> OpShape(ops'[i], DeclaredAt(ops, infos, i))
    ensures ListShape(ops', infos)
  {
    hide OpShape;
    forall i | 0 <= i < |ops'|
      ensures WellFormedAt(ops', infos, i)
    {
      assert WellFormedAt(ops, infos, i) && Redone(ops[i], ops'[i]);
      SameDeclared(ops, ops', infos, i);
      if i > 0 {
        assert Redone(ops[i - 1], ops'[i - 1]);
      }
      if ops[i].jmp.Some? {
        assert Redone(ops[ops[i].jmp.value], ops'[ops[i].jmp.value]);
      }
    }
  }

  lemma {:induction false} SameEnd(ops: seq<Op>, ops': seq<Op>, k: nat)
    requires Rewritten(ops, ops') && k <= |ops|
    ensures Flow.End(ops', k) == Flow.End(ops, k)
    decreases |ops| - k
  {
    if k < |ops| {
      assert Redone(ops[k], ops'[k]);
      if ops[k].code != PROLOG {
        SameEnd(ops, ops', k + 1);
      }
    }
  }

  // ---- The passes ---------------------------------------------------------------------------

  lemma NopShape(op: Op, info: seq<ArgInfo>)
    ensures OpShape(MadeNop(op), info)
  {
    var r := MadeNop(op);
    assert r.T(0) == NO && r.T(1) == NO && r.T(2) == NO;
    assert r.Uses() == {} && r.Defs() == {};
  }

  /** What an operation assigns is not fixed. */
  lemma AssignerNotFixed(op: Op, info: seq<ArgInfo>)
    requires OpShape(op, info) && op.t0 == TREG
    ensures !Fixed(op.code)
  {
    assert op.T(0) == op.t0;
  }

  lemma DroppedShape(ops: seq<Op>, infos: map<int, seq<ArgInfo>>, liveOut: seq<set<int>>, ops': seq<Op>)
    requires ListShape(ops, infos) && UnusedAssign.DroppedAll(ops, liveOut, ops')
    ensures Rewritten(ops, ops') && ListShape(ops', infos)
  {
    hide OpShape, Fixed;
    forall i | 0 <= i < |ops|
      ensures Redone(ops[i], ops'[i]) && OpShape(ops'[i], DeclaredAt(ops, infos, i))
    {
      assert WellFormedAt(ops, infos, i);
      if ops'[i] != ops[i] {
        AssignerNotFixed(ops[i], DeclaredAt(ops, infos, i));
        NopShape(ops[i], DeclaredAt(ops, infos, i));
        assert !Fixed(NOP) by { NopNotFixed(); }
      }
    }
    RewrittenShape(ops, ops', infos);
  }

  lemma NopNotFixed()
    ensures !Fixed(NOP)
  {
  }

  /** One merge. */
  lemma MergedShape(ops: seq<Op>, infos: map<int, seq<ArgInfo>>, i: nat, b2: Op)
    requires ListShape(ops, infos) && i + 1 < |ops| && OpShape(b2, DeclaredAt(ops, infos, i + 1))
    requires !Fixed(ops[i].code) && Redone(ops[i + 1], b2)
    ensures Rewritten(ops, Merging.Merged(ops, i, b2)) && ListShape(Merging.Merged(ops, i, b2), infos)
  {
    hide OpShape, Fixed, Merging.Merged;
    var ops' := Merging.Merged(ops, i, b2);
    forall k | 0 <= k < |ops|
      ensures Redone(ops[k], ops'[k]) && OpShape(ops'[k], DeclaredAt(ops, infos, k))
    {
      assert WellFormedAt(ops, infos, k);
      NopShape(ops[k], DeclaredAt(ops, infos, k));
      NopNotFixed();
    }
    RewrittenShape(ops, ops', infos);
  }

  lemma FoldedShape(prev: Op, op: Op, liveOut: set<int>, info: seq<ArgInfo>)
    requires OpShape(op, info) && StoreFold.Folds(prev, op, liveOut)
    ensures OpShape(StoreFold.Folded(prev, op), info) && !Fixed(prev.code) && Redone(op, StoreFold.Folded(prev, op))
  {
    var r := StoreFold.Folded(prev, op);
    StoreFold.FoldedReadsLess(prev, op);
    hide Op.Uses, Op.Defs, Plain, Shaped, Flow.OpOk, AluForm, StoreFold.StoreShape, Fixed, IsAlias;
    FoldedIs(prev, op, liveOut);
    DefsOf(r);
    MadeShape(r, info);
    MadeOperands(r, op.Uses());
    MadeNotFixed(prev, op, r);
  }

  lemma FoldedIs(prev: Op, op: Op, liveOut: set<int>)
    requires StoreFold.Folds(prev, op, liveOut)
    ensures var r := StoreFold.Folded(prev, op);
      r.code in {X86_STI, X86_STXI} && r.t0 != TREG && r.t1 != TREG && r.t2 != TREG && r.jmp == op.jmp
      && op.code in {ST, STX} && prev.code == MOV
  {
  }

  /** Operations only the passes make ask for nothing but operands in order. */
  lemma MadeShape(op: Op, info: seq<ArgInfo>)
    requires op.code in {X86_ADDMUL, X86_ADDIMM, X86_STI, X86_STXI} && op.t1 != TREG && op.t2 != TREG
    ensures Plain(op, info) && Shaped(op, info) && StoreFold.StoreShape(op) && AluForm(op) && Flow.OpOk(info, op)
  {
    hide MayBranch, Flow.Implicit, Op.Uses, Op.Defs, Fusion.AluShape, Shaped;
    MadeShaped(op, info);
  }

  lemma MadeShaped(op: Op, info: seq<ArgInfo>)
    requires op.code in {X86_ADDMUL, X86_ADDIMM, X86_STI, X86_STXI}
    ensures Shaped(op, info)
  {
    hide MayBranch, NoRegisters, IsAlias;
    MadeGoOn(op.code);
  }

  lemma MadeGoOn(code: Code)
    requires code in {X86_ADDMUL, X86_ADDIMM, X86_STI, X86_STXI}
    ensures !MayBranch(code)
  {
  }

  lemma {:induction false} FoldAllShape(ops: seq<Op>, infos: map<int, seq<ArgInfo>>, liveOut: seq<set<int>>, n: nat)
    requires ListShape(ops, infos) && n <= |ops| == |liveOut|
    ensures Rewritten(ops, StoreFold.FoldAll(ops, liveOut, n)) && ListShape(StoreFold.FoldAll(ops, liveOut, n), infos)
  {
    hide Redone, StoreFold.Folds, StoreFold.Folded, ListShape;
    if n == 0 {
      SameIsRewritten(ops);
    } else {
      FoldAllShape(ops, infos, liveOut, n - 1);
      var r := StoreFold.FoldAll(ops, liveOut, n - 1);
      if n > 1 && StoreFold.Folds(r[n - 2], r[n - 1], liveOut[n - 1]) {
        ShapeAt(r, infos, n - 1);
        FoldedShape(r[n - 2], r[n - 1], liveOut[n - 1], DeclaredAt(r, infos, n - 1));
        MergedShape(r, infos, n - 2, StoreFold.Folded(r[n - 2], r[n - 1]));
        RewrittenOn(ops, r, Merging.Merged(r, n - 2, StoreFold.Folded(r[n - 2], r[n - 1])));
      }
    }
  }

  lemma SameIsRewritten(ops: seq<Op>)
    ensures Rewritten(ops, ops)
  {
  }

  lemma FormsShaped(pass: Fusion.Pass, a: Op, b: Op, info: seq<ArgInfo>, info': seq<ArgInfo>)
    requires OpShape(a, info) && OpShape(b, info')
    ensures Fusion.PairShape(pass, a, b)
  {
  }

  lemma JoinedShape(pass: Fusion.Pass, a: Op, b: Op, liveOut: set<int>, info: seq<ArgInfo>, info': seq<ArgInfo>)
    requires OpShape(a, info) && OpShape(b, info') && Fusion.Join(pass, a, b, liveOut).Some?
    ensures var b2 := Fusion.Join(pass, a, b, liveOut).value; OpShape(b2, info') && !Fixed(a.code) && Redone(b, b2)
  {
    hide OpShape, Fusion.Join, Fusion.PairShape, Redone;
    var b2 := Fusion.Join(pass, a, b, liveOut).value;
    FormsShaped(pass, a, b, info, info');
    JoinedOperands(pass, a, b, liveOut);
    ReadsAllowed(a, info);
    ReadsAllowed(b, info');
    FusedShape(a, b, b2, info');
  }

  /** The fused operation reads only registers of the two, and assigns that of the second. */
  lemma JoinedOperands(pass: Fusion.Pass, a: Op, b: Op, liveOut: set<int>)
    requires Fusion.PairShape(pass, a, b) && Fusion.Join(pass, a, b, liveOut).Some?
    ensures var b2 := Fusion.Join(pass, a, b, liveOut).value;
      && Fusion.AluShape(a) && Fusion.AluShape(b) && Fused(b2) && a.code in {ADD, SUB, MUL, LSH} && b.code in {ADD, SUB, OR}
      && b2.a0 == b.a0 && b2.Uses() <= a.Uses() + b.Uses()
  {
    hide Fusion.Displacement, Fusion.Shift, Op.Uses;
    Fusion.UsesOf(a);
    Fusion.UsesOf(b);
    Fusion.UsesOf(Fusion.Join(pass, a, b, liveOut).value);
  }

  predicate Fused(op: Op) {
    (op.code == X86_ADDMUL || op.code == X86_ADDIMM) && op.jmp.None? && op.t0 == TREG && op.t1 == REG && (op.t2 == REG || op.t2 == IMM)
  }

  /** Registers that may be read, and assigned. */
  lemma ReadsAllowed(op: Op, info: seq<ArgInfo>)
    requires OpShape(op, info) && op.t0 == TREG && op.code !in {PUTARG, CALL}
    ensures (forall v :: v in op.Uses() && IsAlias(v) ==> v == R_FP) && !IsAlias(op.a0)
  {
    assert op.T(0) == TREG && op.A(0) in op.Defs();
  }

  lemma FusedShape(a: Op, b: Op, b2: Op, info: seq<ArgInfo>)
    requires Fused(b2) && b2.a0 == b.a0 && b2.Uses() <= a.Uses() + b.Uses() && b.jmp.None?
    requires a.code in {ADD, SUB, MUL, LSH} && b.code in {ADD, SUB, OR}
    requires forall v :: v in a.Uses() + b.Uses() && IsAlias(v) ==> v == R_FP
    requires !IsAlias(b.a0)
    ensures OpShape(b2, info) && !Fixed(a.code) && Redone(b, b2)
  {
    hide Op.Uses, Op.Defs, Plain, Shaped, StoreFold.StoreShape, AluForm, Flow.OpOk, OperandsOk, Fixed, IsAlias;
    DefsOf(b2);
    MadeShape(b2, info);
    MadeOperands(b2, a.Uses() + b.Uses());
    MadeNotFixed(a, b, b2);
  }

  lemma MadeOperands(op: Op, uses: set<int>)
    requires op.Uses() <= uses && op.t1 != TREG && op.t2 != TREG && op.code != PUTARG && op.code != CALL
    requires (forall v :: v in uses && IsAlias(v) ==> v == R_FP) && forall v :: v in op.Defs() ==> !IsAlias(v)
    ensures OperandsOk(op)
  {
    hide IsAlias;
  }

  lemma MadeNotFixed(a: Op, b: Op, b2: Op)
    requires a.code in {ADD, SUB, MUL, LSH, MOV} && b.code in {ADD, SUB, OR, ST, STX}
    requires b2.code in {X86_ADDMUL, X86_ADDIMM, X86_STI, X86_STXI} && b2.jmp == b.jmp
    ensures !Fixed(a.code) && Redone(b, b2)
  {
  }

  lemma {:induction false} FuseAllShape(pass: Fusion.Pass, ops: seq<Op>, infos: map<int, seq<ArgInfo>>, liveOut: seq<set<int>>, n: nat)
    requires ListShape(ops, infos) && n <= |ops| == |liveOut|
    ensures Rewritten(ops, Fusion.FuseAll(pass, ops, liveOut, n)) && ListShape(Fusion.FuseAll(pass, ops, liveOut, n), infos)
  {
    hide Fusion.Join, ListShape, Rewritten, Fusion.FuseAll, Merging.Merged;
    if n == 0 {
      SameIsRewritten(ops);
      Fusion.FuseNone(pass, ops, liveOut);
    } else {
      FuseAllShape(pass, ops, infos, liveOut, n - 1);
      Fusion.FuseAllNext(pass, ops, liveOut, n);
      var r := Fusion.FuseAll(pass, ops, liveOut, n - 1);
      if n < |ops| && Fusion.Join(pass, r[n - 1], r[n], liveOut[n]).Some? {
        FusedOnce(pass, r, infos, n - 1, liveOut[n]);
        RewrittenOn(ops, r, Merging.Merged(r, n - 1, Fusion.Join(pass, r[n - 1], r[n], liveOut[n]).value));
      }
    }
  }

  lemma FusedOnce(pass: Fusion.Pass, ops: seq<Op>, infos: map<int, seq<ArgInfo>>, i: nat, liveOut: set<int>)
    requires ListShape(ops, infos) && i + 1 < |ops| && Fusion.Join(pass, ops[i], ops[i + 1], liveOut).Some?
    ensures var r := Merging.Merged(ops, i, Fusion.Join(pass, ops[i], ops[i + 1], liveOut).value); Rewritten(ops, r) && ListShape(r, infos)
  {
    hide Fusion.Join, ListShape, Rewritten, Merging.Merged, OpShape, Redone, Fixed, DeclaredAt;
    ShapeAt(ops, infos, i);
    ShapeAt(ops, infos, i + 1);
    JoinedShape(pass, ops[i], ops[i + 1], liveOut, DeclaredAt(ops, infos, i), DeclaredAt(ops, infos, i + 1));
    MergedShape(ops, infos, i, Fusion.Join(pass, ops[i], ops[i + 1], liveOut).value);
  }
}
