/** Data in the code (`jit_data_byte`, `jit_data_bytes`, `jit_data_ref_code`,
    `jit_data_ref_data`): what removing dead code does to it. */
module Data {
  import opened Ops
  import opened Moving
  import opened Insertion
  import opened Rewrites
  import opened Shapes
  import opened Layout
  import opened Front
  import DeadCode
  import Removal

  /** Operations that are laid out among the code but are none: the head of the list,
      data, alignment, and labels, which references to data lead to. */
  predicate InImage(code: Code) {
    || code == CODESTART || code == CODE_ALIGN || code == LABEL || code == PATCH
    || code == DATA_BYTE || code == DATA_BYTES || code == DATA_REF_CODE || code == DATA_REF_DATA
  }

  /** All of them, in order. */
  function Image(ops: seq<Op>): seq<Op> {
    if ops == [] then []
    else
      var less, op := Image(ops[..|ops| - 1]), ops[|ops| - 1];
      if InImage(op.code) then less + [op] else less
  }

  /** The same with references following. */
  function MovedAll(place: seq<nat>, ops: seq<Op>): (r: seq<Op>)
    ensures |r| == |ops| && forall i :: 0 <= i < |ops| ==> r[i] == MovedOp(place, ops[i])
  {
    seq(|ops|, i requires 0 <= i < |ops| => MovedOp(place, ops[i]))
  }

  lemma ImageOn(ops: seq<Op>, op: Op)
    ensures Image(ops + [op]) == if InImage(op.code) then Image(ops) + [op] else Image(ops)
  {
    assert (ops + [op])[..|ops|] == ops;
  }

  /** If all of it is kept, it is the same image. */
  lemma {:induction false} ImageKept(ops: seq<Op>, keep: set<nat>, place: seq<nat>, n: nat)
    requires n <= |ops| && forall i: nat :: i < n && InImage(ops[i].code) ==> i in keep
    ensures Image(Removal.KeptOps(ops, keep, place, n)) == MovedAll(place, Image(ops[..n]))
  {
    hide InImage;
    if n > 0 {
      ImageKept(ops, keep, place, n - 1);
      var op := ops[n - 1];
      assert ops[..n] == ops[..n - 1] + [op];
      ImageOn(ops[..n - 1], op);
      ImageOn(Removal.KeptOps(ops, keep, place, n - 1), MovedOp(place, op));
      KeptNext(ops, keep, place, n);
      assert MovedAll(place, Image(ops[..n - 1]) + [op]) == MovedAll(place, Image(ops[..n - 1])) + [MovedOp(place, op)];
    }
  }

  lemma KeptNext(ops: seq<Op>, keep: set<nat>, place: seq<nat>, n: nat)
    requires 0 < n <= |ops|
    ensures var r := Removal.KeptOps(ops, keep, place, n - 1);
      Removal.KeptOps(ops, keep, place, n) == if n - 1 in keep then r + [MovedOp(place, ops[n - 1])] else r
  {
  }

  /** If some of it goes, it is shorter. */
  lemma {:induction false} ImageShrinks(ops: seq<Op>, keep: set<nat>, place: seq<nat>, n: nat)
    requires n <= |ops|
    ensures |Image(Removal.KeptOps(ops, keep, place, n))| <= |Image(ops[..n])|
    ensures (exists i: nat :: i < n && InImage(ops[i].code) && i !in keep) ==>
      |Image(Removal.KeptOps(ops, keep, place, n))| < |Image(ops[..n])|
  {
    hide InImage;
    if n > 0 {
      ImageShrinks(ops, keep, place, n - 1);
      assert ops[..n] == ops[..n - 1] + [ops[n - 1]];
      ImageOn(ops[..n - 1], ops[n - 1]);
      ImageOn(Removal.KeptOps(ops, keep, place, n - 1), MovedOp(place, ops[n - 1]));
      KeptNext(ops, keep, place, n);
    }
  }

  /** Removing dead code leaves the image as it was, exactly when no DATA_BYTES is out
      of reach: alone of the operations that emit data it is not among the directives. */
  lemma ImageStays(ops: seq<Op>)
    ensures Image(Shorter(ops, Survivors(ops))) == MovedAll(Removal.Places(Survivors(ops), |ops|), Image(ops)) <==>
      forall i: nat :: i < |ops| && ops[i].code == DATA_BYTES ==> DeadCode.Reachable(ops, i)
  {
    hide DeadCode.Reachable, Image, Removal.KeptOps;
    var keep := Survivors(ops);
    var place := Removal.Places(keep, |ops|);
    assert ops[..|ops|] == ops;
    forall i: nat | i < |ops| && InImage(ops[i].code)
      ensures i in keep <==> ops[i].code != DATA_BYTES || DeadCode.Reachable(ops, i)
    {
    }
    if forall i: nat :: i < |ops| && ops[i].code == DATA_BYTES ==> DeadCode.Reachable(ops, i) {
      ImageKept(ops, keep, place, |ops|);
    } else {
      ImageShrinks(ops, keep, place, |ops|);
    }
  }

  /** Putting moves of immediates and spills in front of operations changes nothing in it. */
  lemma {:induction false} ImageOfFlat(pre: seq<seq<Op>>, ops: seq<Op>, place: seq<nat>, n: nat)
    requires |pre| == |ops| && n <= |ops|
    requires forall i, k :: 0 <= i < |pre| && 0 <= k < |pre[i]| ==> pre[i][k].code in {MOV, FULL_SPILL}
    ensures Image(Flat(pre, ops, place, n)) == MovedAll(place, Image(ops[..n]))
  {
    hide InImage, Image, Flat, MovedOp;
    FlatNext(pre, ops, place, n);
    if n == 0 {
      EmptyImage();
      assert ops[..0] == [];
    } else {
      ImageOfFlat(pre, ops, place, n - 1);
      var op, flat := ops[n - 1], Flat(pre, ops, place, n - 1);
      assert ops[..n] == ops[..n - 1] + [op];
      NotInImage(flat, pre[n - 1]);
      ImageOn(ops[..n - 1], op);
      ImageOn(flat + pre[n - 1], MovedOp(place, op));
      SameCode(place, op);
      assert MovedAll(place, Image(ops[..n - 1]) + [op]) == MovedAll(place, Image(ops[..n - 1])) + [MovedOp(place, op)];
    }
  }

  lemma FlatNext(pre: seq<seq<Op>>, ops: seq<Op>, place: seq<nat>, n: nat)
    requires |pre| == |ops| && n <= |ops|
    ensures Flat(pre, ops, place, n) ==
      if n == 0 then [] else Flat(pre, ops, place, n - 1) + pre[n - 1] + [MovedOp(place, ops[n - 1])]
  {
  }

  lemma EmptyImage()
    ensures Image([]) == []
  {
  }

  lemma SameCode(place: seq<nat>, op: Op)
    ensures MovedOp(place, op).code == op.code
  {
  }

  lemma {:induction false} NotInImage(a: seq<Op>, b: seq<Op>)
    requires forall k :: 0 <= k < |b| ==> b[k].code in {MOV, FULL_SPILL}
    ensures Image(a + b) == Image(a)
  {
    hide InImage, Image;
    if b == [] {
      assert a + b == a;
    } else {
      var less, op := b[..|b| - 1], b[|b| - 1];
      NotInImage(a, less);
      assert a + b == (a + less) + [op];
      ImageOn(a + less, op);
      assert !InImage(op.code) by { CodeIsNone(op.code); }
    }
  }

  lemma CodeIsNone(code: Code)
    requires code in {MOV, FULL_SPILL}
    ensures !InImage(code)
  {
  }

  /** What a reference leads to survives with it. */
  lemma ReferencesLead(ops: seq<Op>, infos: map<int, seq<ArgInfo>>, i: nat)
    requires ListShape(ops, infos) && PointsWell(ops) && i in Survivors(ops) && i < |ops|
    requires ops[i].code in {DATA_REF_CODE, DATA_REF_DATA, REF_CODE, REF_DATA} && ops[i].jmp.Some?
    ensures ops[i].jmp.value in Survivors(ops)
  {
    hide ListShape, PointsWell, Survivors, KeepOk;
    SurvivorsOk(ops, infos, Survivors(ops));
    CompanyKept(ops, Survivors(ops), i);
  }

  /** And so does all that stands behind what living code refers to. */
  lemma {:induction false} DataBehindStays(ops: seq<Op>, i: nat, t: nat, k: nat)
    requires i < |ops| && DeadCode.Reachable(ops, i) && ops[i].jmp == Some(t) && t <= k < |ops|
    requires forall j :: t <= j < k ==> ops[j].code !in {RET, FRET, JMP}
    ensures DeadCode.Reachable(ops, k) && k in Survivors(ops)
  {
    hide DeadCode.Reachable;
    if k == t {
      Removal.ReachedOn(ops, i, t);
    } else {
      DataBehindStays(ops, i, t, k - 1);
      Removal.ReachedOn(ops, k - 1, k);
    }
  }

  // ---- Bytes that go -------------------------------------------------------------------------

  function Directive(code: Code): Op {
    Op(code, Bare, false, NO, NO, NO, 0, 0, 0, 0, None, 0)
  }

  /** Behind a function that returns. */
  function Behind(code: Code): seq<Op> {
    [Directive(CODESTART), Directive(PROLOG), Directive(RET), Directive(code)]
  }

  lemma BehindIs(code: Code)
    requires code in {DATA_BYTE, DATA_BYTES}
    ensures var ops := Behind(code);
      && |ops| == 4 && ops[0].code == CODESTART && ops[1].code == PROLOG && ops[2].code == RET && ops[3].code == code
      && forall i :: 0 <= i < 4 ==> ops[i].jmp.None?
  {
  }

  /** A single byte stays, a row of bytes does not. */
  lemma RowOfBytesGoes()
    ensures 3 in Survivors(Behind(DATA_BYTE)) && 3 !in Survivors(Behind(DATA_BYTES))
  {
    hide Behind, DeadCode.Reachable;
    BehindIs(DATA_BYTE);
    BehindIs(DATA_BYTES);
    var ops := Behind(DATA_BYTES);
    assert DeadCode.ClosedSet(ops, {1, 2});
    if DeadCode.Reachable(ops, 3) {
      DeadCode.ReachableIsLeast(ops, {1, 2}, 3);
    }
  }
}
