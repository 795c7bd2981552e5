/** Putting operations in front of others, and removing some, keeps the shape of a
    list and the extent of its functions. */
module Layout {
  import opened Ops
  import opened OpList
  import opened RegAlloc
  import opened Machine
  import opened Allocation
  import opened Moving
  import opened Insertion
  import opened Shapes
  import DeadCode
  import Flow
  import Removal
  import StoreFold

  // ---- A longer list -----------------------------------------------------------------------

  /** What is put in front has a shape of its own, and stands in front of no operation
      that has to follow the one before it. */
  ghost predicate FrontsOk(pre: seq<seq<Op>>, ops: seq<Op>) {
    && |pre| == |ops|
    && (forall i, k :: 0 <= i < |pre| && 0 <= k < |pre[i]| ==> FrontShape(pre[i][k]))
    && (forall i :: 0 <= i < |pre| && ops[i].code in {PUTARG, CALL, RETVAL, PROLOG} ==> pre[i] == [])
  }

  ghost predicate FrontShape(op: Op) {
    && (forall info :: OpShape(op, info)) && op.jmp.None? && !IsRef(op) && GoesOnly(op)
    && op.code !in {PUTARG, CALL, RETVAL, PROLOG}
  }

  lemma MovedShape(place: seq<nat>, op: Op, info: seq<ArgInfo>)
    requires OpShape(op, info)
    ensures OpShape(MovedOp(place, op), info)
  {
    hide Plain, Shaped, StoreFold.StoreShape, AluForm, OperandsOk, Flow.OpOk, Op.Uses, Op.Defs;
    MovedFields(place, op, info);
    MovedOperands(place, op, info);
  }

  lemma MovedFields(place: seq<nat>, op: Op, info: seq<ArgInfo>)
    requires Plain(op, info) && Shaped(op, info) && StoreFold.StoreShape(op) && AluForm(op)
    ensures var r := MovedOp(place, op); Plain(r, info) && Shaped(r, info) && StoreFold.StoreShape(r) && AluForm(r)
  {
    var r := MovedOp(place, op);
    assert NoRegisters(op) ==> NoRegisters(r) by { MovedSame(place, op); }
  }

  lemma MovedSame(place: seq<nat>, op: Op)
    ensures forall i :: MovedOp(place, op).T(i) == op.T(i) && MovedOp(place, op).A(i) == op.A(i)
    ensures MovedOp(place, op).Uses() == op.Uses() && MovedOp(place, op).Defs() == op.Defs()
  {
    var r := MovedOp(place, op);
    assert forall i :: r.T(i) == op.T(i) && r.A(i) == op.A(i);
  }

  lemma MovedOperands(place: seq<nat>, op: Op, info: seq<ArgInfo>)
    requires OperandsOk(op) && Flow.OpOk(info, op)
    ensures OperandsOk(MovedOp(place, op)) && Flow.OpOk(info, MovedOp(place, op))
  {
    MovedSame(place, op);
    hide Op.Uses, Op.Defs;
  }

  lemma FrontsMatch(pre: seq<seq<Op>>, ops: seq<Op>)
    requires FrontsOk(pre, ops)
    ensures |pre| == |ops|
    ensures forall i :: 0 <= i < |pre| && ops[i].code in {PUTARG, CALL, RETVAL, PROLOG} ==> pre[i] == []
  {
  }

  lemma FrontAt(pre: seq<seq<Op>>, ops: seq<Op>, i: nat, k: nat)
    requires FrontsOk(pre, ops) && i < |pre| && k < |pre[i]|
    ensures var op := pre[i][k];
      && FrontShape(op) && op.jmp.None? && !IsRef(op) && GoesOnly(op) && !Jumps(op)
      && op.code !in {PUTARG, CALL, RETVAL, PROLOG} && forall info :: OpShape(op, info)
  {
    hide OpShape, GoesOnly;
    assert FrontShape(pre[i][k]);
    FrontLands(pre[i][k]);
  }

  lemma FrontCode(pre: seq<seq<Op>>, ops: seq<Op>, i: nat, k: nat)
    requires FrontsOk(pre, ops) && i < |pre| && k < |pre[i]|
    ensures pre[i][k].code != PROLOG
  {
    hide FrontShape;
    FrontAt(pre, ops, i, k);
  }

  lemma FrontLands(op: Op)
    requires FrontShape(op)
    ensures !Jumps(op)
  {
  }

  /** The declared arguments in force after the first n operations. */
  function DeclaredAfter(ops: seq<Op>, infos: map<int, seq<ArgInfo>>, n: nat): seq<ArgInfo>
    requires n <= |ops|
  {
    if n == 0 then [] else DeclaredAt(ops, infos, n - 1)
  }

  lemma DeclaredIs(ops: seq<Op>, infos: map<int, seq<ArgInfo>>, i: nat)
    requires i < |ops|
    ensures DeclaredAfter(ops, infos, i + 1) == DeclaredAt(ops, infos, i) == NextInfo(infos, ops[i], DeclaredAfter(ops, infos, i))
    ensures DeclaredAfter(ops, infos, 0) == []
  {
  }

  lemma NothingDeclared(ops: seq<Op>, ops': seq<Op>, infos: map<int, seq<ArgInfo>>)
    ensures DeclaredAfter(ops, infos, 0) == DeclaredAfter(ops', infos, 0)
  {
  }

  lemma FirstStart(pre: seq<seq<Op>>)
    ensures Start(pre, 0) == 0
  {
  }

  /** The declared arguments in force behind what stands in front of an operation. */
  lemma {:induction false} DeclaredThrough(pre: seq<seq<Op>>, ops: seq<Op>, infos: map<int, seq<ArgInfo>>, i: nat, k: nat)
    requires FrontsOk(pre, ops) && i < |ops| && k <= |pre[i]| && Start(pre, i) + k <= |Longer(pre, ops)|
    requires DeclaredAfter(Longer(pre, ops), infos, Start(pre, i)) == DeclaredAfter(ops, infos, i)
    ensures DeclaredAfter(Longer(pre, ops), infos, Start(pre, i) + k) == DeclaredAfter(ops, infos, i)
  {
    hide Longer, Start, DeclaredAt, DeclaredAfter, FrontsOk;
    if k > 0 {
      assert |pre| == |ops| by { FrontsMatch(pre, ops); }
      DeclaredThrough(pre, ops, infos, i, k - 1);
      LongerBefore(pre, ops, i, k - 1);
      FrontCode(pre, ops, i, k - 1);
      DeclaredIs(Longer(pre, ops), infos, Start(pre, i) + (k - 1));
    }
  }

  /** The declared arguments in force where the operations for i begin. */
  lemma {:induction false} DeclaredMoved(pre: seq<seq<Op>>, ops: seq<Op>, infos: map<int, seq<ArgInfo>>, i: nat)
    requires FrontsOk(pre, ops) && i <= |ops|
    ensures Start(pre, i) <= |Longer(pre, ops)|
    ensures DeclaredAfter(Longer(pre, ops), infos, Start(pre, i)) == DeclaredAfter(ops, infos, i)
  {
    hide Longer, Start, DeclaredAt, DeclaredAfter, FrontsOk;
    FrontsMatch(pre, ops);
    FirstStart(pre);
    NothingDeclared(Longer(pre, ops), ops, infos);
    LongerLength(pre, ops);
    StartMonotone(pre, i, |pre|);
    if i > 0 {
      DeclaredMoved(pre, ops, infos, i - 1);
      NextStart(pre, i - 1);
      LongerAt(pre, ops, i - 1);
      DeclaredThrough(pre, ops, infos, i - 1, |pre[i - 1]|);
      DeclaredIs(Longer(pre, ops), infos, Place(pre, i - 1));
      DeclaredIs(ops, infos, i - 1);
    }
  }

  /** And at the operation itself. */
  lemma DeclaredHere(pre: seq<seq<Op>>, ops: seq<Op>, infos: map<int, seq<ArgInfo>>, i: nat)
    requires FrontsOk(pre, ops) && i < |ops|
    ensures Place(pre, i) < |Longer(pre, ops)| && DeclaredAt(Longer(pre, ops), infos, Place(pre, i)) == DeclaredAt(ops, infos, i)
  {
    hide Longer, Start, DeclaredAt, DeclaredAfter, FrontsOk;
    FrontsMatch(pre, ops);
    DeclaredMoved(pre, ops, infos, i + 1);
    NextStart(pre, i);
    LongerAt(pre, ops, i);
    DeclaredIs(ops, infos, i);
    DeclaredIs(Longer(pre, ops), infos, Place(pre, i));
  }

  lemma LongerAdjacent(pre: seq<seq<Op>>, ops: seq<Op>, i: nat)
    requires FrontsOk(pre, ops) && i < |ops| && AdjacentAt(ops, i)
    ensures Place(pre, i) < |Longer(pre, ops)| && AdjacentAt(Longer(pre, ops), Place(pre, i))
  {
    hide Longer, Start, FrontsOk;
    FrontsMatch(pre, ops);
    LongerAt(pre, ops, i);
    if ops[i].code in {PUTARG, CALL, RETVAL} {
      NextStart(pre, i - 1);
      LongerAt(pre, ops, i - 1);
    }
  }

  lemma LongerLands(pre: seq<seq<Op>>, ops: seq<Op>, i: nat)
    requires FrontsOk(pre, ops) && i < |ops| && LandsAt(ops, i)
    ensures Place(pre, i) < |Longer(pre, ops)| && LandsAt(Longer(pre, ops), Place(pre, i))
  {
    hide Longer, Start, FrontsOk;
    FrontsMatch(pre, ops);
    LongerAt(pre, ops, i);
    if ops[i].jmp.Some? {
      LongerAt(pre, ops, ops[i].jmp.value);
    }
  }

  lemma LongerWellFormed(pre: seq<seq<Op>>, ops: seq<Op>, infos: map<int, seq<ArgInfo>>, i: nat)
    requires FrontsOk(pre, ops) && ListShape(ops, infos) && i < |ops|
    ensures Place(pre, i) < |Longer(pre, ops)| && WellFormedAt(Longer(pre, ops), infos, Place(pre, i))
  {
    hide Longer, Place, OpShape, FrontsOk, ListShape, AdjacentAt, LandsAt, DeclaredAt;
    FrontsMatch(pre, ops);
    ShapeAt(ops, infos, i);
    LongerAt(pre, ops, i);
    DeclaredHere(pre, ops, infos, i);
    MovedShape(Places(pre), ops[i], DeclaredAt(ops, infos, i));
    LongerAdjacent(pre, ops, i);
    LongerLands(pre, ops, i);
  }

  lemma FrontWellFormed(pre: seq<seq<Op>>, ops: seq<Op>, infos: map<int, seq<ArgInfo>>, i: nat, k: nat)
    requires FrontsOk(pre, ops) && i < |ops| && k < |pre[i]|
    ensures Start(pre, i) + k < |Longer(pre, ops)| && WellFormedAt(Longer(pre, ops), infos, Start(pre, i) + k)
  {
    hide Longer, Start, OpShape, FrontsOk, FrontShape, DeclaredAt;
    FrontsMatch(pre, ops);
    LongerBefore(pre, ops, i, k);
    FrontAt(pre, ops, i, k);
  }

  lemma LongerShape(pre: seq<seq<Op>>, ops: seq<Op>, infos: map<int, seq<ArgInfo>>)
    requires FrontsOk(pre, ops) && ListShape(ops, infos)
    ensures ListShape(Longer(pre, ops), infos)
  {
    hide Longer, WellFormedAt, FrontsOk;
    FrontsMatch(pre, ops);
    LongerLength(pre, ops);
    forall p: nat | p < |Longer(pre, ops)|
      ensures WellFormedAt(Longer(pre, ops), infos, p)
    {
      var i := OwnerOf(pre, |pre|, p);
      if p < Place(pre, i) {
        FrontWellFormed(pre, ops, infos, i, p - Start(pre, i));
      } else {
        LongerWellFormed(pre, ops, infos, i);
      }
    }
  }

  /** What stands at a place is no PROLOG unless its operation is one. */
  lemma LongerProlog(pre: seq<seq<Op>>, ops: seq<Op>, i: nat, p: nat)
    requires FrontsOk(pre, ops) && i < |ops| && Owns(pre, i, p)
    ensures p < |Longer(pre, ops)| && (Longer(pre, ops)[p].code == PROLOG <==> ops[i].code == PROLOG && p == Place(pre, i))
  {
    hide Longer, Start, FrontsOk;
    FrontsMatch(pre, ops);
    LongerAt(pre, ops, i);
    if p < Place(pre, i) {
      LongerBefore(pre, ops, i, p - Start(pre, i));
      FrontCode(pre, ops, i, p - Start(pre, i));
    }
  }

  /** No PROLOG in between means the same function. */
  lemma {:induction false} EndBeyond(ops: seq<Op>, k: nat, i: nat)
    requires k <= i < |ops| && forall j :: k <= j <= i ==> ops[j].code != PROLOG
    ensures i < Flow.End(ops, k)
    decreases i - k
  {
    if k < i {
      EndBeyond(ops, k + 1, i);
    }
  }

  /** What belongs to a function still does. */
  lemma LongerExtent(pre: seq<seq<Op>>, ops: seq<Op>, q: nat, i: nat, p: nat)
    requires FrontsOk(pre, ops) && q <= i < |ops| && i < Flow.End(ops, q + 1) && Flow.StartsAt(ops, q) && Owns(pre, i, p)
    ensures Place(pre, q) <= p < |Longer(pre, ops)| && p < Flow.End(Longer(pre, ops), Place(pre, q) + 1)
  {
    hide Longer, Start, OpShape, FrontShape;
    LongerProlog(pre, ops, i, p);
    assert pre[q] == [];
    if i == q {
      assert p == Place(pre, q);
    } else {
      PlacesInOrder(pre, q, i);
      forall j: nat | Place(pre, q) + 1 <= j <= p
        ensures Longer(pre, ops)[j].code != PROLOG
      {
        LongerLength(pre, ops);
        var o := OwnerOf(pre, |pre|, j);
        OwnerBetween(pre, q, i, o, j, p);
        LongerProlog(pre, ops, o, j);
      }
      EndBeyond(Longer(pre, ops), Place(pre, q) + 1, p);
    }
  }

  lemma OwnerBetween(pre: seq<seq<Op>>, q: nat, i: nat, o: nat, j: nat, p: nat)
    requires q < |pre| && Owns(pre, i, p) && Owns(pre, o, j) && Place(pre, q) < j <= p
    ensures q < o <= i
  {
    hide Start;
    if o < q {
      PlacesInOrder(pre, o, q);
    }
    if i < o {
      PlacesInOrder(pre, i, o);
    }
  }

  // ---- A shorter list ----------------------------------------------------------------------

  /** Only jumps, calls and references point anywhere; calls at functions, and references
      to data at labels. */
  predicate PointsAt(ops: seq<Op>, i: nat)
    requires i < |ops|
  {
    var op := ops[i];
    op.jmp.Some? ==>
      && (Jumps(op) || IsRef(op) || op.code in {CALL, REF_DATA, DATA_REF_DATA}) && op.jmp.value < |ops|
      && (op.code in {CALL, REF_DATA, DATA_REF_DATA} ==> IsLanding(ops[op.jmp.value].code) || ops[op.jmp.value].code == PROLOG)
  }

  ghost predicate PointsWell(ops: seq<Op>) {
    forall i :: 0 <= i < |ops| ==> PointsAt(ops, i)
  }

  /** What is kept keeps its company. */
  ghost predicate KeepOk(ops: seq<Op>, keep: set<nat>) {
    && (forall i: nat :: i in keep ==> i < |ops|)
    && (forall i: nat :: i < |ops| && ops[i].code == PROLOG ==> i in keep)
    && (forall i: nat :: i in keep && i < |ops| && ops[i].code in {PUTARG, CALL, RETVAL} && i > 0 ==> i - 1 in keep)
    && (forall i: nat :: i in keep && i < |ops| && ops[i].jmp.Some? ==> ops[i].jmp.value in keep)
  }

  lemma CompanyKept(ops: seq<Op>, keep: set<nat>, i: nat)
    requires KeepOk(ops, keep) && i < |ops|
    ensures ops[i].code == PROLOG ==> i in keep
    ensures i in keep && ops[i].code in {PUTARG, CALL, RETVAL} && i > 0 ==> i - 1 in keep
    ensures i in keep && ops[i].jmp.Some? ==> ops[i].jmp.value in keep && ops[i].jmp.value < |ops|
  {
  }

  /** Control comes to an operation that is no landing place from the one before it. */
  lemma ReachedFromBefore(ops: seq<Op>, infos: map<int, seq<ArgInfo>>, i: nat)
    requires ListShape(ops, infos) && PointsWell(ops) && i < |ops| && DeadCode.Reachable(ops, i)
    requires !IsLanding(ops[i].code) && ops[i].code != PROLOG
    ensures i > 0 && DeadCode.Reachable(ops, i - 1)
  {
    hide OpShape, AdjacentAt;
    var r: nat :| r < |ops| && DeadCode.Root(ops, r) && DeadCode.ReachableFrom(ops, r, i);
    var path :| DeadCode.Path(ops, path) && path[0] == r && path[|path| - 1] == i;
    if |path| == 1 {
      var k :| 0 <= k < |ops| && ops[k].code == DATA_REF_CODE && ops[k].jmp == Some(i);
      ShapeAt(ops, infos, k);
    } else {
      var j, before := path[|path| - 2], path[..|path| - 1];
      assert DeadCode.Follows(ops, path[|path| - 2], path[|path| - 1]);
      assert DeadCode.Path(ops, before) && before[|before| - 1] == j;
      ShapeAt(ops, infos, j);
      assert PointsAt(ops, j);
    }
  }

  /** What marking keeps. */
  lemma SurvivorsOk(ops: seq<Op>, infos: map<int, seq<ArgInfo>>, keep: set<nat>)
    requires ListShape(ops, infos) && PointsWell(ops) && Removal.Survive(ops, keep)
    ensures KeepOk(ops, keep)
  {
    hide ListShape, OpShape, AdjacentAt, DeadCode.Reachable;
    forall i: nat | i < |ops| && ops[i].code == PROLOG
      ensures i in keep
    {
      RootReached(ops, i);
    }
    forall i: nat | i in keep && i < |ops| && ops[i].code in {PUTARG, CALL, RETVAL} && i > 0
      ensures i - 1 in keep
    {
      ReachedFromBefore(ops, infos, i);
    }
    forall i: nat | i in keep && i < |ops| && ops[i].jmp.Some?
      ensures ops[i].jmp.value in keep
    {
      assert PointsAt(ops, i);
      if ops[i].code == DATA_REF_CODE {
        RootReached(ops, ops[i].jmp.value);
      } else if DeadCode.Reachable(ops, i) {
        Removal.ReachedOn(ops, i, ops[i].jmp.value);
      }
    }
  }

  lemma RootReached(ops: seq<Op>, r: nat)
    requires r < |ops| && DeadCode.Root(ops, r)
    ensures DeadCode.Reachable(ops, r)
  {
    DeadCode.ReachSelf(ops, r);
  }

  /** The list without what is not kept. */
  function Shorter(ops: seq<Op>, keep: set<nat>): seq<Op> {
    Removal.KeptOps(ops, keep, Removal.Places(keep, |ops|), |ops|)
  }

  lemma ShorterAt(ops: seq<Op>, keep: set<nat>, i: nat)
    requires i < |ops| && i in keep
    ensures |Shorter(ops, keep)| == Removal.Count(keep, |ops|) && Removal.Count(keep, i) < Removal.Count(keep, |ops|)
    ensures Shorter(ops, keep)[Removal.Count(keep, i)] == MovedOp(Removal.Places(keep, |ops|), ops[i])
    ensures Removal.Count(keep, i + 1) == Removal.Count(keep, i) + 1
  {
    hide Removal.KeptOps;
    Removal.KeptOpAt(ops, keep, Removal.Places(keep, |ops|), |ops|, i);
  }

  lemma {:induction false} DeclaredKept(ops: seq<Op>, infos: map<int, seq<ArgInfo>>, keep: set<nat>, n: nat)
    requires KeepOk(ops, keep) && n <= |ops|
    ensures Removal.Count(keep, n) <= |Shorter(ops, keep)|
    ensures DeclaredAfter(Shorter(ops, keep), infos, Removal.Count(keep, n)) == DeclaredAfter(ops, infos, n)
  {
    hide Shorter, DeclaredAt, DeclaredAfter, KeepOk;
    NothingDeclared(Shorter(ops, keep), ops, infos);
    if n > 0 {
      DeclaredKept(ops, infos, keep, n - 1);
      DeclaredIs(ops, infos, n - 1);
      CompanyKept(ops, keep, n - 1);
      if n - 1 in keep {
        ShorterAt(ops, keep, n - 1);
        DeclaredIs(Shorter(ops, keep), infos, Removal.Count(keep, n - 1));
      }
    }
  }

  lemma ShorterAdjacent(ops: seq<Op>, keep: set<nat>, i: nat)
    requires KeepOk(ops, keep) && i < |ops| && i in keep && AdjacentAt(ops, i)
    ensures Removal.Count(keep, i) < |Shorter(ops, keep)| && AdjacentAt(Shorter(ops, keep), Removal.Count(keep, i))
  {
    hide Shorter, Removal.Count, KeepOk;
    ShorterAt(ops, keep, i);
    CompanyKept(ops, keep, i);
    if ops[i].code in {PUTARG, CALL, RETVAL} {
      ShorterAt(ops, keep, i - 1);
    }
  }

  lemma ShorterLands(ops: seq<Op>, keep: set<nat>, i: nat)
    requires KeepOk(ops, keep) && i < |ops| && i in keep && LandsAt(ops, i)
    ensures Removal.Count(keep, i) < |Shorter(ops, keep)| && LandsAt(Shorter(ops, keep), Removal.Count(keep, i))
  {
    hide Shorter, Removal.Count, KeepOk;
    ShorterAt(ops, keep, i);
    CompanyKept(ops, keep, i);
    if ops[i].jmp.Some? {
      ShorterAt(ops, keep, ops[i].jmp.value);
    }
  }

  lemma ShorterWellFormed(ops: seq<Op>, infos: map<int, seq<ArgInfo>>, keep: set<nat>, i: nat)
    requires KeepOk(ops, keep) && ListShape(ops, infos) && i in keep && i < |ops|
    ensures Removal.Count(keep, i) < |Shorter(ops, keep)|
    ensures WellFormedAt(Shorter(ops, keep), infos, Removal.Count(keep, i))
  {
    hide Shorter, OpShape, KeepOk, ListShape, AdjacentAt, LandsAt, DeclaredAt, Removal.Count;
    ShapeAt(ops, infos, i);
    ShorterAt(ops, keep, i);
    DeclaredKept(ops, infos, keep, i + 1);
    DeclaredIs(ops, infos, i);
    DeclaredIs(Shorter(ops, keep), infos, Removal.Count(keep, i));
    MovedShape(Removal.Places(keep, |ops|), ops[i], DeclaredAt(ops, infos, i));
    ShorterAdjacent(ops, keep, i);
    ShorterLands(ops, keep, i);
  }

  lemma ShorterShape(ops: seq<Op>, infos: map<int, seq<ArgInfo>>, keep: set<nat>)
    requires KeepOk(ops, keep) && ListShape(ops, infos)
    ensures ListShape(Shorter(ops, keep), infos)
  {
    hide ListShape, WellFormedAt, KeepOk;
    forall k: nat | k < |Shorter(ops, keep)|
      ensures WellFormedAt(Shorter(ops, keep), infos, k)
    {
      var i := Removal.KeptFrom(ops, keep, Removal.Places(keep, |ops|), |ops|, k);
      ShorterWellFormed(ops, infos, keep, i);
    }
    ShapeFromEach(Shorter(ops, keep), infos);
  }

  lemma ShapeFromEach(ops: seq<Op>, infos: map<int, seq<ArgInfo>>)
    requires forall k: nat :: k < |ops| ==> WellFormedAt(ops, infos, k)
    ensures ListShape(ops, infos)
  {
  }

  /** What belongs to a function still does. */
  lemma ShorterExtent(ops: seq<Op>, keep: set<nat>, q: nat, i: nat)
    requires KeepOk(ops, keep) && i in keep && q <= i < |ops| && i < Flow.End(ops, q + 1) && Flow.StartsAt(ops, q)
    ensures var at, start := Removal.Count(keep, i), Removal.Count(keep, q);
      start <= at < |Shorter(ops, keep)| && at < Flow.End(Shorter(ops, keep), start + 1)
  {
    hide Shorter, Removal.Count, KeepOk, Flow.End;
    assert q in keep by { PrologIn(ops, keep, q); }
    var ops', at, start := Shorter(ops, keep), Removal.Count(keep, i), Removal.Count(keep, q);
    ShorterAt(ops, keep, q);
    ShorterAt(ops, keep, i);
    Removal.CountMonotone(keep, q, i);
    if q < i {
      Removal.CountMonotone(keep, q + 1, i);
      forall j: nat | start + 1 <= j <= at
        ensures ops'[j].code != PROLOG
      {
        var o := KeptBetween(ops, keep, q, i, j);
        ShorterAt(ops, keep, o);
        NoPrologBefore(ops, q + 1, o);
      }
      EndBeyond(ops', start + 1, at);
    } else {
      EndNotBefore(ops', start + 1);
    }
  }

  lemma PrologIn(ops: seq<Op>, keep: set<nat>, q: nat)
    requires KeepOk(ops, keep) && Flow.StartsAt(ops, q)
    ensures q in keep
  {
  }

  lemma NoPrologBefore(ops: seq<Op>, k: nat, i: nat)
    requires k <= i < |ops| && i < Flow.End(ops, k)
    ensures ops[i].code != PROLOG
  {
  }

  lemma EndNotBefore(ops: seq<Op>, k: nat)
    requires k <= |ops|
    ensures k <= Flow.End(ops, k)
  {
  }

  lemma KeptBetween(ops: seq<Op>, keep: set<nat>, q: nat, i: nat, j: nat) returns (o: nat)
    requires q in keep && i in keep && q < i < |ops| && Removal.Count(keep, q) < j <= Removal.Count(keep, i)
    requires j < |Shorter(ops, keep)|
    ensures q < o <= i && o in keep && Removal.Count(keep, o) == j
  {
    o := Removal.KeptFrom(ops, keep, Removal.Places(keep, |ops|), |ops|, j);
    if o <= q {
      Removal.CountMonotone(keep, o, q);
    }
    if i < o {
      Removal.CountMonotone(keep, i + 1, o);
    }
  }
}
