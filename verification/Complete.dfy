/** The passes are complete: what each is for is not to be found in the list it leaves. */
module Complete {
  import opened Ops
  import Bits
  import opened Merging
  import opened StoreFold
  import opened Fusion
  import opened UnusedAssign
  import opened Passes

  // ---- Unused assignments ------------------------------------------------------------------

  /** No operation assigns a register nobody needs, but for the four that leave a carry. */
  lemma NothingUnused(o: Options, ops: seq<Op>, liveOut: seq<set<int>>, i: nat)
    requires |ops| == |liveOut| && i < |ops| && o.drop
    ensures var op := WithoutUnused(o, ops, liveOut)[i];
      op.t0 == TREG ==> op.a0 in liveOut[i] || op.code == ADDC || op.code == ADDX || op.code == SUBC || op.code == SUBX
  {
    DroppedJust(ops[i], liveOut[i]);
  }

  // ---- Stores of constants ------------------------------------------------------------------

  /** A constant of 32 bits is moved into a register, stored at once, and not needed again. */
  predicate StoresConstant(prev: Op, op: Op, liveOut: set<int>) {
    && prev.code == MOV && prev.mode == ImmForm && !prev.unsigned && -0x8000_0000 <= prev.a1 < 0x8000_0000
    && ((op.code == ST && op.a1 == prev.a0) || (op.code == STX && op.a2 == prev.a0)) && prev.a0 !in liveOut
  }

  /** No such pair among the first n operations. */
  ghost predicate NoConstantStored(ops: seq<Op>, liveOut: seq<set<int>>, n: nat)
    requires n <= |ops| == |liveOut|
  {
    forall i :: 0 < i < n ==> !StoresConstant(ops[i - 1], ops[i], liveOut[i])
  }

  lemma FoldsThese(prev: Op, op: Op, liveOut: set<int>)
    ensures Folds(prev, op, liveOut) <==> StoresConstant(prev, op, liveOut)
    ensures Folds(prev, op, liveOut) ==> Folded(prev, op).code in {X86_STI, X86_STXI}
  {
  }

  lemma {:induction false} AllFolded(ops: seq<Op>, liveOut: seq<set<int>>, n: nat)
    requires n <= |ops| == |liveOut|
    ensures NoConstantStored(FoldAll(ops, liveOut, n), liveOut, n)
  {
    if n > 1 {
      hide NoConstantStored, Folds, Folded, StoresConstant;
      AllFolded(ops, liveOut, n - 1);
      var r := FoldAll(ops, liveOut, n - 1);
      FoldsThese(r[n - 2], r[n - 1], liveOut[n - 1]);
      OneMoreFolded(r, liveOut, n, FoldAll(ops, liveOut, n));
    }
  }

  lemma OneMoreFolded(r: seq<Op>, liveOut: seq<set<int>>, n: nat, q: seq<Op>)
    requires 1 < n <= |r| == |liveOut| == |q| && NoConstantStored(r, liveOut, n - 1)
    requires if StoresConstant(r[n - 2], r[n - 1], liveOut[n - 1])
             then (exists b2: Op :: b2.code !in {ST, STX} && q == Merged(r, n - 2, b2))
             else q == r
    ensures NoConstantStored(q, liveOut, n)
  {
    if q != r {
      var b2: Op :| b2.code !in {ST, STX} && q == Merged(r, n - 2, b2);
    }
  }

  lemma NoStoreIsLeft(o: Options, ops: seq<Op>, liveOut: seq<set<int>>)
    requires |ops| == |liveOut| && o.x86
    ensures NoConstantStored(WithStores(o, ops, liveOut), liveOut, |ops|)
  {
    hide NoConstantStored, FoldAll;
    AllFolded(WithoutUnused(o, ops, liveOut), liveOut, |ops|);
  }

  // ---- Pairs of operations ---------------------------------------------------------------------

  /** The result of the first is gone after the second, which reads some register. */
  predicate Passing(a: Op, b: Op, liveOut: set<int>) {
    && (b.a0 == a.a0 || a.a0 !in liveOut)
    && ((b.t0 == REG && b.a0 != 0) || (b.t1 == REG && b.a1 != 0) || (b.t2 == REG && b.a2 != 0))
  }

  /** A product by two, four or eight, or a shift by one, two or three. */
  predicate Scales(a: Op) {
    a.mode == ImmForm && !a.unsigned &&
    ((a.code == MUL && (a.a2 == 2 || a.a2 == 4 || a.a2 == 8)) || (a.code == LSH && (a.a2 == 1 || a.a2 == 2 || a.a2 == 3)))
  }

  function ScaleOf(a: Op): int {
    if a.code == MUL then a.a2 else if a.a2 == 1 then 2 else if a.a2 == 2 then 4 else 8
  }

  predicate Narrow(x: int) {
    -0x8000_0000 <= x < 0x8000_0000
  }

  /** The pairs each pass is for. */
  predicate IsPair(pass: Pass, a: Op, b: Op, liveOut: set<int>) {
    && Passing(a, b, liveOut) && !b.unsigned && !a.unsigned
    && match pass
       case JoinAddMul =>
         && Scales(a)
         && ((b.code == ADD && b.mode == ImmForm && Narrow(b.a2)) || (b.code == ADD && b.mode == RegForm && b.a1 != b.a2)
             || (b.code == OR && b.mode == ImmForm && 0 < b.a2 < ScaleOf(a)))
       case JoinAddImm =>
         || (a.code == ADD && a.mode == RegForm && (b.code == ADD || b.code == SUB) && b.mode == ImmForm && Narrow(b.a2))
         || ((a.code == ADD || a.code == SUB) && a.mode == ImmForm && b.code == ADD && b.mode == RegForm && Narrow(a.a2))
  }

  lemma PassingIsRelated(a: Op, b: Op, liveOut: set<int>)
    ensures RelatedOp(a, b, liveOut) <==> Passing(a, b, liveOut)
  {
    assert b.T(0) == b.t0 && b.T(1) == b.t1 && b.T(2) == b.t2 && b.A(0) == b.a0 && b.A(1) == b.a1 && b.A(2) == b.a2;
  }

  lemma ScaleIs(a: Op)
    ensures SuitableMul(a) <==> Scales(a)
    ensures SuitableMul(a) ==> Bits.Pow2(Shift(a)) == ScaleOf(a)
  {
    assert Bits.Pow2(1) == 2 && Bits.Pow2(2) == 4 && Bits.Pow2(3) == 8;
  }

  /** Exactly these pairs are joined. */
  lemma JoinsThese(pass: Pass, a: Op, b: Op, liveOut: set<int>)
    ensures Join(pass, a, b, liveOut).Some? <==> IsPair(pass, a, b, liveOut)
  {
    hide RelatedOp, Passing, SuitableMul, Scales, ScaleOf, Bits.Pow2, Shift, Displacement;
    PassingIsRelated(a, b, liveOut);
    ScaleIs(a);
    if Scales(a) {
      ScalesForm(a);
    }
  }

  lemma ScalesForm(a: Op)
    requires Scales(a)
    ensures !a.unsigned && a.mode == ImmForm && a.code in {MUL, LSH}
  {
  }

  ghost predicate NoPair(pass: Pass, ops: seq<Op>, liveOut: seq<set<int>>, n: nat)
    requires n <= |ops| == |liveOut|
  {
    forall i :: 0 < i < n ==> !IsPair(pass, ops[i - 1], ops[i], liveOut[i])
  }

  /** After n steps of a pass no pair is left among the first n + 1 operations. */
  lemma {:induction false} AllJoined(pass: Pass, ops: seq<Op>, liveOut: seq<set<int>>, n: nat)
    requires n < |ops| == |liveOut|
    ensures NoPair(pass, FuseAll(pass, ops, liveOut, n), liveOut, n + 1)
  {
    hide NoPair, Join, IsPair, FuseAll;
    FuseNone(pass, ops, liveOut);
    if n == 0 {
      NoPairYet(pass, ops, liveOut);
    } else {
      AllJoined(pass, ops, liveOut, n - 1);
      FuseAllNext(pass, ops, liveOut, n);
      var r := FuseAll(pass, ops, liveOut, n - 1);
      JoinsThese(pass, r[n - 1], r[n], liveOut[n]);
      if Join(pass, r[n - 1], r[n], liveOut[n]).Some? {
        JoinedIsNoAlu(pass, r[n - 1], r[n], liveOut[n]);
      }
      OneMoreJoined(pass, r, liveOut, n, FuseAll(pass, ops, liveOut, n));
    }
  }

  lemma NoPairYet(pass: Pass, ops: seq<Op>, liveOut: seq<set<int>>)
    requires 0 < |ops| == |liveOut|
    ensures NoPair(pass, ops, liveOut, 1)
  {
  }

  lemma OneMoreJoined(pass: Pass, r: seq<Op>, liveOut: seq<set<int>>, n: nat, q: seq<Op>)
    requires 0 < n < |r| == |liveOut| == |q| && NoPair(pass, r, liveOut, n)
    requires if IsPair(pass, r[n - 1], r[n], liveOut[n])
             then (exists b2: Op :: b2.code !in {ADD, SUB, MUL, LSH, OR} && q == Merged(r, n - 1, b2))
             else q == r
    ensures NoPair(pass, q, liveOut, n + 1)
  {
    hide Passing, Scales, ScaleOf, Narrow;
    if q != r {
      var b2: Op :| b2.code !in {ADD, SUB, MUL, LSH, OR} && q == Merged(r, n - 1, b2);
    }
  }

  /** The list each fusing pass leaves. */
  lemma NoPairIsLeft(o: Options, ops: seq<Op>, liveOut: seq<set<int>>)
    requires 0 < |ops| == |liveOut| && o.x86 && o.join
    ensures NoPair(JoinAddMul, WithAddMul(o, ops, liveOut), liveOut, |ops|)
    ensures NoPair(JoinAddImm, WithAddImm(o, ops, liveOut), liveOut, |ops|)
  {
    hide NoPair, FuseAll, WithStores;
    LastStepNothing(JoinAddMul, WithStores(o, ops, liveOut), liveOut);
    AllJoined(JoinAddMul, WithStores(o, ops, liveOut), liveOut, |ops| - 1);
    LastStepNothing(JoinAddImm, WithAddMul(o, ops, liveOut), liveOut);
    AllJoined(JoinAddImm, WithAddMul(o, ops, liveOut), liveOut, |ops| - 1);
  }

  /** Behind the last operation there is none to join. */
  lemma LastStepNothing(pass: Pass, ops: seq<Op>, liveOut: seq<set<int>>)
    requires 0 < |ops| == |liveOut|
    ensures FuseAll(pass, ops, liveOut, |ops|) == FuseAll(pass, ops, liveOut, |ops| - 1)
  {
    hide Join;
  }
}
