/** Operations put in front of others: the longer list, where everything stands in
    it, and where execution may come. */
module Insertion {
  import opened Ops
  import opened Machine
  import opened Moving
  import opened Rewrites

  /** Where the first of the operations for i stands. */
  function Start(pre: seq<seq<Op>>, i: nat): nat
    requires i <= |pre|
  {
    if i == 0 then 0 else Start(pre, i - 1) + |pre[i - 1]| + 1
  }

  /** Where operation i itself stands, or where the list ends. */
  function Place(pre: seq<seq<Op>>, i: nat): nat
    requires i <= |pre|
  {
    Start(pre, i) + if i < |pre| then |pre[i]| else 0
  }

  function Places(pre: seq<seq<Op>>): (place: seq<nat>)
    ensures |place| == |pre| + 1 && forall i :: 0 <= i <= |pre| ==> place[i] == Place(pre, i)
  {
    seq(|pre| + 1, i requires 0 <= i <= |pre| => Place(pre, i))
  }

  /** The list for the first n operations. */
  function Flat(pre: seq<seq<Op>>, ops: seq<Op>, place: seq<nat>, n: nat): seq<Op>
    requires |pre| == |ops| && n <= |ops|
  {
    if n == 0 then [] else Flat(pre, ops, place, n - 1) + pre[n - 1] + [MovedOp(place, ops[n - 1])]
  }

  /** The whole list. */
  function Longer(pre: seq<seq<Op>>, ops: seq<Op>): seq<Op>
    requires |pre| == |ops|
  {
    Flat(pre, ops, Places(pre), |ops|)
  }

  lemma {:induction false} FlatLength(pre: seq<seq<Op>>, ops: seq<Op>, place: seq<nat>, n: nat)
    requires |pre| == |ops| && n <= |ops|
    ensures |Flat(pre, ops, place, n)| == Start(pre, n)
  {
    if n > 0 {
      FlatLength(pre, ops, place, n - 1);
    }
  }

  lemma {:induction false} StartMonotone(pre: seq<seq<Op>>, i: nat, n: nat)
    requires i <= n <= |pre|
    ensures Start(pre, i) + (n - i) <= Start(pre, n)
  {
    if i < n {
      StartMonotone(pre, i, n - 1);
    }
  }

  lemma {:induction false} FlatAt(pre: seq<seq<Op>>, ops: seq<Op>, place: seq<nat>, n: nat, i: nat)
    requires |pre| == |ops| && i < n <= |ops|
    ensures |Flat(pre, ops, place, n)| == Start(pre, n) && Place(pre, i) < Start(pre, n)
    ensures Flat(pre, ops, place, n)[Place(pre, i)] == MovedOp(place, ops[i])
  {
    FlatLength(pre, ops, place, n - 1);
    if i < n - 1 {
      FlatAt(pre, ops, place, n - 1, i);
    }
  }

  lemma {:induction false} FlatBefore(pre: seq<seq<Op>>, ops: seq<Op>, place: seq<nat>, n: nat, i: nat, k: nat)
    requires |pre| == |ops| && i < n <= |ops| && k < |pre[i]|
    ensures |Flat(pre, ops, place, n)| == Start(pre, n) && Start(pre, i) + k < Start(pre, n)
    ensures Flat(pre, ops, place, n)[Start(pre, i) + k] == pre[i][k]
  {
    FlatLength(pre, ops, place, n - 1);
    if i < n - 1 {
      FlatBefore(pre, ops, place, n - 1, i, k);
    }
  }

  /** What stands at the place of operation i, and in front of it. */
  lemma LongerAt(pre: seq<seq<Op>>, ops: seq<Op>, i: nat)
    requires |pre| == |ops| && i < |ops|
    ensures |Longer(pre, ops)| == Start(pre, |pre|) && Place(pre, i) < Start(pre, |pre|)
    ensures Longer(pre, ops)[Place(pre, i)] == MovedOp(Places(pre), ops[i])
  {
    hide Flat, MovedOp, Place;
    FlatAt(pre, ops, Places(pre), |ops|, i);
  }

  lemma LongerBefore(pre: seq<seq<Op>>, ops: seq<Op>, i: nat, k: nat)
    requires |pre| == |ops| && i < |ops| && k < |pre[i]|
    ensures |Longer(pre, ops)| == Start(pre, |pre|) && Start(pre, i) + k < Start(pre, |pre|)
    ensures Longer(pre, ops)[Start(pre, i) + k] == pre[i][k]
  {
    hide Flat, MovedOp, Place, Start;
    FlatBefore(pre, ops, Places(pre), |ops|, i, k);
  }

  lemma LongerLength(pre: seq<seq<Op>>, ops: seq<Op>)
    requires |pre| == |ops|
    ensures |Longer(pre, ops)| == Start(pre, |pre|)
  {
    FlatLength(pre, ops, Places(pre), |ops|);
  }

  /** The place belongs to operation i. */
  predicate Owns(pre: seq<seq<Op>>, i: nat, p: nat) {
    i < |pre| && Start(pre, i) <= p <= Start(pre, i) + |pre[i]|
  }

  lemma {:induction false} OwnerOf(pre: seq<seq<Op>>, n: nat, p: nat) returns (i: nat)
    requires n <= |pre| && p < Start(pre, n)
    ensures i < n && Owns(pre, i, p)
  {
    if p < Start(pre, n - 1) {
      i := OwnerOf(pre, n - 1, p);
    } else {
      i := n - 1;
    }
  }

  lemma NextStart(pre: seq<seq<Op>>, i: nat)
    requires i < |pre|
    ensures Start(pre, i + 1) == Start(pre, i) + |pre[i]| + 1 == Place(pre, i) + 1
    ensures Owns(pre, i, Place(pre, i)) && Owns(pre, i, Start(pre, i))
  {
  }

  /** Places are in the order of the operations. */
  lemma PlacesInOrder(pre: seq<seq<Op>>, i: nat, j: nat)
    requires i < j <= |pre|
    ensures Place(pre, i) < Start(pre, j) <= Place(pre, j)
  {
    NextStart(pre, i);
    StartMonotone(pre, i + 1, j);
  }

  // ---- Where execution may come ---------------------------------------------------------

  /** All places that belong to these operations. */
  ghost function Owned(pre: seq<seq<Op>>, reach: set<nat>): set<nat> {
    set p: nat | p < Start(pre, |pre|) && OwnedPlace(pre, reach, p)
  }

  ghost predicate OwnedPlace(pre: seq<seq<Op>>, reach: set<nat>, p: nat) {
    exists i: nat :: i in reach && Owns(pre, i, p)
  }

  lemma OwnedBy(pre: seq<seq<Op>>, reach: set<nat>, i: nat, p: nat)
    requires i in reach && Owns(pre, i, p)
    ensures p in Owned(pre, reach)
  {
    StartMonotone(pre, i + 1, |pre|);
    NextStart(pre, i);
  }

  lemma OwnerIn(pre: seq<seq<Op>>, reach: set<nat>, p: nat) returns (i: nat)
    requires p in Owned(pre, reach)
    ensures i in reach && Owns(pre, i, p) && p < Start(pre, |pre|)
  {
    i :| i in reach && Owns(pre, i, p);
  }

  /** What is put in front goes on to the next operation. */
  predicate GoesOnly(op: Op) {
    op.code != JMP && op.code != RET && !MayBranch(op.code)
  }

  predicate AllGoOn(pre: seq<seq<Op>>) {
    forall i, k :: 0 <= i < |pre| && 0 <= k < |pre[i]| ==> GoesOnly(pre[i][k])
  }

  ghost predicate Inside(ops: seq<Op>, targets: set<nat>) {
    (forall i :: 0 <= i < |ops| ==> JumpsInside(ops[i], |ops|)) && forall t :: t in targets ==> t < |ops|
  }

  lemma TargetsInside(ops: seq<Op>, targets: set<nat>)
    requires Inside(ops, targets)
    ensures forall t :: t in targets ==> t < |ops|
  {
  }

  /** Where an operation goes in the longer list. */
  lemma OwnerGoes(pre: seq<seq<Op>>, ops: seq<Op>, targets: set<nat>, i: nat, t: nat) returns (u: nat)
    requires |pre| == |ops| && i < |ops| && Inside(ops, targets) && Place(pre, i) < |Longer(pre, ops)| == Start(pre, |pre|)
    requires Goes(Longer(pre, ops), MovedTargets(Places(pre), targets), Place(pre, i), t)
    ensures Goes(ops, targets, i, u) && Owns(pre, u, t)
  {
    LongerAt(pre, ops, i);
    NextStart(pre, i);
    hide Longer, Start;
    var place, op := Places(pre), ops[i];
    if op.code != JMP && op.code != RET && t == place[i] + 1 {
      u := i + 1;
    } else if ((op.code == JMP && op.mode == ImmForm) || MayBranch(op.code)) && op.jmp.Some? && place[op.jmp.value] == t {
      u := op.jmp.value;
    } else {
      u :| u in targets && place[u] == t;
    }
    if u < |ops| {
      NextStart(pre, u);
    }
  }

  lemma OwnedEncloses(pre: seq<seq<Op>>, ops: seq<Op>, targets: set<nat>, reach: set<nat>)
    requires |pre| == |ops| && AllGoOn(pre) && Inside(ops, targets) && Encloses(ops, targets, reach)
    ensures Encloses(Longer(pre, ops), MovedTargets(Places(pre), targets), Owned(pre, reach))
  {
    hide Longer, Owned, Goes, MovedTargets, Start, Inside, AllGoOn;
    assert forall t :: t in targets ==> t < |ops| by { TargetsInside(ops, targets); }
    LongerLength(pre, ops);
    forall p: nat, t: nat | p in Owned(pre, reach) && p < |Longer(pre, ops)| && Goes(Longer(pre, ops), MovedTargets(Places(pre), targets), p, t)
      ensures t in Owned(pre, reach)
    {
      var i := OwnerIn(pre, reach, p);
      if p < Place(pre, i) {
        LongerBefore(pre, ops, i, p - Start(pre, i));
        InsertedGoes(pre, Longer(pre, ops), MovedTargets(Places(pre), targets), i, p, t);
        OwnedBy(pre, reach, i, t);
      } else {
        var u := OwnerGoes(pre, ops, targets, i, t);
        GoesAlong(ops, targets, reach, i, u);
        OwnedBy(pre, reach, u, t);
      }
    }
  }

  lemma GoesAlong(ops: seq<Op>, targets: set<nat>, reach: set<nat>, i: nat, t: nat)
    requires Encloses(ops, targets, reach) && i in reach && i < |ops| && Goes(ops, targets, i, t)
    ensures t in reach
  {
  }

  lemma InsertedGoes(pre: seq<seq<Op>>, ops: seq<Op>, targets: set<nat>, i: nat, p: nat, t: nat)
    requires AllGoOn(pre) && Owns(pre, i, p) && p < Place(pre, i) && p < |ops| && ops[p] == pre[i][p - Start(pre, i)] && Goes(ops, targets, p, t)
    ensures t == p + 1 && Owns(pre, i, t)
  {
  }
}
