/** Dead code: `mark_livecode` and `jit_dead_code_analysis` of
    `myjit/flow-analysis.h`. */
module DeadCode {
  import opened Ops
  import opened OpList

  predicate Stops(code: Code) {
    code == RET || code == FRET || code == JMP
  }

  /** From operation i marking goes on to operation t. */
  predicate Follows(ops: seq<Op>, i: nat, t: nat)
    requires i < |ops|
  {
    t < |ops| && (ops[i].jmp == Some(t) || (t == i + 1 && !Stops(ops[i].code)))
  }

  /** What stands behind a jump or a return is not followed. */
  lemma NothingBehind(ops: seq<Op>, i: nat)
    requires i < |ops| && ops[i].jmp != Some(i + 1) && (ops[i].code == RET || ops[i].code == FRET || ops[i].code == JMP)
    ensures !Follows(ops, i, i + 1)
  {
  }

  ghost predicate Path(ops: seq<Op>, path: seq<nat>) {
    && |path| > 0 && (forall k :: 0 <= k < |path| ==> path[k] < |ops|)
    && (forall k :: 0 <= k < |path| - 1 ==> Follows(ops, path[k], path[k + 1]))
  }

  ghost predicate ReachableFrom(ops: seq<Op>, a: nat, b: nat) {
    exists path :: Path(ops, path) && path[0] == a && path[|path| - 1] == b
  }

  /** Where execution can begin: a function, or data that points at code. */
  ghost predicate Root(ops: seq<Op>, i: nat)
    requires i < |ops|
  {
    ops[i].code == PROLOG || exists k :: 0 <= k < |ops| && ops[k].code == DATA_REF_CODE && ops[k].jmp == Some(i)
  }

  ghost predicate Reachable(ops: seq<Op>, i: nat) {
    exists r: nat :: r < |ops| && Root(ops, r) && ReachableFrom(ops, r, i)
  }

  lemma ReachSelf(ops: seq<Op>, a: nat)
    requires a < |ops|
    ensures ReachableFrom(ops, a, a)
  {
    assert Path(ops, [a]);
  }

  lemma ReachStep(ops: seq<Op>, a: nat, b: nat, c: nat)
    requires ReachableFrom(ops, a, b) && b < |ops| && Follows(ops, b, c)
    ensures ReachableFrom(ops, a, c)
  {
    var path :| Path(ops, path) && path[0] == a && path[|path| - 1] == b;
    var longer := path + [c];
    assert forall k :: 0 <= k < |longer| - 1 ==> longer[k] == path[k];
    assert Path(ops, longer) && longer[|longer| - 1] == c;
  }

  lemma {:induction false} ReachTrans(ops: seq<Op>, a: nat, b: nat, path: seq<nat>)
    requires ReachableFrom(ops, a, b) && Path(ops, path) && path[0] == b
    ensures ReachableFrom(ops, a, path[|path| - 1])
    decreases |path|
  {
    if |path| > 1 {
      ReachStep(ops, a, b, path[1]);
      assert forall k :: 0 <= k < |path[1..]| ==> path[1..][k] == path[k + 1];
      ReachTrans(ops, a, path[1], path[1..]);
    }
  }

  /** A set that nothing leads out of. */
  ghost predicate ClosedSet(ops: seq<Op>, used: set<nat>) {
    forall i, t :: i in used && i < |ops| && Follows(ops, i, t) ==> t in used
  }

  lemma {:induction false} ClosedHoldsPath(ops: seq<Op>, used: set<nat>, path: seq<nat>)
    requires ClosedSet(ops, used) && Path(ops, path) && path[0] in used
    ensures path[|path| - 1] in used
  {
    if |path| > 1 {
      assert forall k :: 0 <= k < |path[1..]| ==> path[1..][k] == path[k + 1];
      ClosedHoldsPath(ops, used, path[1..]);
    }
  }

  /** Reachability is the least closed set that holds the roots. */
  lemma ReachableIsLeast(ops: seq<Op>, used: set<nat>, i: nat)
    requires ClosedSet(ops, used) && (forall r: nat :: r < |ops| && Root(ops, r) ==> r in used)
    requires Reachable(ops, i)
    ensures i in used
  {
    var r: nat :| r < |ops| && Root(ops, r) && ReachableFrom(ops, r, i);
    var path :| Path(ops, path) && path[0] == r && path[|path| - 1] == i;
    ClosedHoldsPath(ops, used, path);
  }

  // ---- Marking ----------------------------------------------------------------------

  /** The list holds these operations, with `jmp_addr` set. */
  ghost predicate Numbered(nodes: seq<OpNode>, ops: seq<Op>)
    reads nodes`prev, nodes`next, nodes`jmpAddr
  {
    && Linked(nodes) && |nodes| == |ops|
    && (forall i {:trigger nodes[i].op} :: 0 <= i < |nodes| ==> nodes[i].op == ops[i] && nodes[i].pos == i)
    && (forall i :: 0 <= i < |nodes| && ops[i].jmp.Some? ==> ops[i].jmp.value < |nodes|)
    && (forall i {:trigger nodes[i].jmpAddr} :: 0 <= i < |nodes| ==>
          nodes[i].jmpAddr == if ops[i].jmp.Some? then nodes[ops[i].jmp.value] else null)
  }

  ghost predicate IsNode(nodes: seq<OpNode>, n: OpNode) {
    n.pos < |nodes| && nodes[n.pos] == n
  }

  /** An operation and where it points. */
  lemma NodeAt(nodes: seq<OpNode>, ops: seq<Op>, n: OpNode)
    requires Numbered(nodes, ops) && IsNode(nodes, n)
    ensures |nodes| == |ops| && n in nodes && n.pos < |nodes| && n.op == ops[n.pos]
    ensures if n.pos + 1 == |nodes| then n.next == null else n.next != null && IsNode(nodes, n.next) && n.next.pos == n.pos + 1
    ensures match n.op.jmp
      case Some(t) => t < |nodes| && n.jmpAddr != null && IsNode(nodes, n.jmpAddr) && n.jmpAddr.pos == t
      case None => n.jmpAddr == null
  {
    var i := n.pos;
    assert nodes[i].op == ops[i] && nodes[i].next == NextOf(nodes, i) && nodes[i].jmpAddr == n.jmpAddr;
    if i + 1 < |nodes| {
      assert nodes[i + 1].op == ops[i + 1];
    }
    if ops[i].jmp.Some? {
      assert nodes[ops[i].jmp.value].op == ops[ops[i].jmp.value];
    }
  }

  ghost function Used(nodes: seq<OpNode>): set<nat>
    reads nodes`inUse
  {
    set i | 0 <= i < |nodes| && nodes[i].inUse
  }

  ghost function Unused(nodes: seq<OpNode>): set<nat>
    reads nodes`inUse
  {
    set i | 0 <= i < |nodes| && !nodes[i].inUse
  }

  /** What marking from operation `a` has added to the set it began with, but for
      one operation that is still to come. */
  ghost predicate MarkedFrom(ops: seq<Op>, a: nat, was: set<nat>, used: set<nat>, pending: Option<nat>) {
    && was <= used && (pending.Some? ==> ReachableFrom(ops, a, pending.value))
    && (forall i :: i in used && i !in was ==> i < |ops| && ReachableFrom(ops, a, i))
    && (forall i, t :: i in used && i !in was && i < |ops| && Follows(ops, i, t) ==> t in used || pending == Some(t))
  }

  method SetInUse(op: OpNode, ghost ops: seq<Op>, ghost nodes: seq<OpNode>)
    requires Numbered(nodes, ops) && IsNode(nodes, op)
    modifies op`inUse
    ensures Used(nodes) == old(Used(nodes)) + {op.pos} && Unused(nodes) == old(Unused(nodes)) - {op.pos}
  {
    op.inUse := true;
    assert forall i :: 0 <= i < |nodes| && nodes[i] == op ==> i == op.pos;
  }

  lemma UsedOrNot(nodes: seq<OpNode>, n: OpNode)
    requires IsNode(nodes, n)
    ensures if n.inUse then n.pos in Used(nodes) else n.pos in Unused(nodes) && n.pos !in Used(nodes)
  {
  }

  lemma NothingMarked(ops: seq<Op>, a: nat, was: set<nat>)
    requires a < |ops|
    ensures MarkedFrom(ops, a, was, was, Some(a))
  {
    ReachSelf(ops, a);
  }

  lemma PendingMarked(ops: seq<Op>, a: nat, was: set<nat>, used: set<nat>, i: nat)
    requires MarkedFrom(ops, a, was, used, Some(i)) && i in used
    ensures MarkedFrom(ops, a, was, used, None)
  {
  }

  /** Marking the pending operation and all its jump leads to. */
  lemma MarkedOn(ops: seq<Op>, a: nat, was: set<nat>, used: set<nat>, i: nat, more: set<nat>)
    requires i < |ops| && i !in used && MarkedFrom(ops, a, was, used, Some(i))
    requires match ops[i].jmp
      case Some(t) => t < |ops| && t in more && MarkedFrom(ops, t, used + {i}, more, None)
      case None => more == used + {i}
    ensures MarkedFrom(ops, a, was, more, if Stops(ops[i].code) || i + 1 == |ops| then None else Some(i + 1))
  {
    forall k | k in more && k !in was
      ensures k < |ops| && ReachableFrom(ops, a, k)
    {
      if k !in used && k != i {
        var t := ops[i].jmp.value;
        ReachStep(ops, a, i, t);
        var path :| Path(ops, path) && path[0] == t && path[|path| - 1] == k;
        ReachTrans(ops, a, t, path);
      }
    }
    if !Stops(ops[i].code) && i + 1 < |ops| {
      ReachStep(ops, a, i, i + 1);
    }
  }

  /** `mark_livecode`. */
  method MarkLivecode(start: OpNode, ghost ops: seq<Op>, ghost nodes: seq<OpNode>)
    requires Numbered(nodes, ops) && IsNode(nodes, start)
    modifies nodes`inUse
    ensures MarkedFrom(ops, start.pos, old(Used(nodes)), Used(nodes), None) && start.pos in Used(nodes)
    ensures old(Used(nodes)) <= Used(nodes) && Unused(nodes) <= old(Unused(nodes))
    decreases Unused(nodes)
  {
    hide Numbered, MarkedFrom, Used, Unused, IsNode, Stops;
    ghost var was := Used(nodes);
    var op: OpNode? := start;
    NodeAt(nodes, ops, start);
    NothingMarked(ops, start.pos, was);
    while op != null
      invariant op != null ==> IsNode(nodes, op)
      invariant MarkedFrom(ops, start.pos, was, Used(nodes), if op == null then None else Some(op.pos))
      invariant op == start || start.pos in Used(nodes)
      invariant was <= Used(nodes) && Unused(nodes) <= old(Unused(nodes))
      decreases if op == null then 0 else |nodes| - op.pos
    {
      UsedOrNot(nodes, op);
      if op.inUse {
        PendingMarked(ops, start.pos, was, Used(nodes), op.pos);
        return;
      }
      ghost var i, used := op.pos, Used(nodes);
      NodeAt(nodes, ops, op);
      assert i in old(Unused(nodes));
      SetInUse(op, ops, nodes);
      if op.jmpAddr != null {
        MarkLivecode(op.jmpAddr, ops, nodes);
      }
      MarkedOn(ops, start.pos, was, used, i, Used(nodes));
      if Stops(op.op.code) {
        return;
      }
      op := op.next;
    }
  }

  /** Operations that stay whether or not they are reached. */
  predicate IsDirective(code: Code) {
    code in {CODESTART, DATA_BYTE, DATA_REF_CODE, DATA_REF_DATA, CODE_ALIGN, LABEL, PATCH, COMMENT, MARK}
  }

  /** All roots among the first n operations have been followed. */
  ghost predicate RootsMarked(ops: seq<Op>, used: set<nat>, n: nat) {
    && ClosedSet(ops, used)
    && (forall i :: i in used ==> Reachable(ops, i))
    && (forall k :: 0 <= k < n && k < |ops| && ops[k].code == PROLOG ==> k in used)
    && (forall k :: 0 <= k < n && k < |ops| && ops[k].code == DATA_REF_CODE && ops[k].jmp.Some? ==> ops[k].jmp.value in used)
  }

  lemma RootMarked(ops: seq<Op>, was: set<nat>, used: set<nat>, root: nat, n: nat)
    requires root < |ops| && Root(ops, root) && RootsMarked(ops, was, n) && MarkedFrom(ops, root, was, used, None)
    ensures RootsMarked(ops, used, n)
  {
  }

  lemma RootDone(ops: seq<Op>, used: set<nat>, n: nat)
    requires RootsMarked(ops, used, n) && n < |ops|
    requires ops[n].code == PROLOG ==> n in used
    requires ops[n].code == DATA_REF_CODE && ops[n].jmp.Some? ==> ops[n].jmp.value in used
    ensures RootsMarked(ops, used, n + 1)
  {
  }

  method MarkRoots(op: OpNode, ghost ops: seq<Op>, ghost nodes: seq<OpNode>)
    requires Numbered(nodes, ops) && IsNode(nodes, op) && (op.op.code == DATA_REF_CODE ==> op.op.jmp.Some?)
    requires RootsMarked(ops, Used(nodes), op.pos)
    modifies nodes`inUse
    ensures RootsMarked(ops, Used(nodes), op.pos + 1)
  {
    hide Numbered, MarkedFrom, Used, RootsMarked;
    NodeAt(nodes, ops, op);
    ghost var was := Used(nodes);
    if op.op.code == PROLOG {
      MarkLivecode(op, ops, nodes);
      RootMarked(ops, was, Used(nodes), op.pos, op.pos);
    }
    if op.op.code == DATA_REF_CODE {
      MarkLivecode(op.jmpAddr, ops, nodes);
      RootMarked(ops, was, Used(nodes), op.jmpAddr.pos, op.pos);
    }
    RootDone(ops, Used(nodes), op.pos);
  }

  lemma AllRootsMarked(ops: seq<Op>, used: set<nat>)
    requires RootsMarked(ops, used, |ops|)
    ensures forall i: nat :: i in used <==> i < |ops| && Reachable(ops, i)
  {
    forall i: nat
      ensures i in used <==> i < |ops| && Reachable(ops, i)
    {
      if i < |ops| && Reachable(ops, i) {
        ReachableIsLeast(ops, used, i);
      }
    }
  }

  /** The first pass over the list. */
  method MarkOrdinary(first: OpNode, ghost ops: seq<Op>, ghost nodes: seq<OpNode>)
    requires Numbered(nodes, ops) && IsNode(nodes, first) && first.pos == 0 && Used(nodes) == {}
    requires forall k :: 0 <= k < |ops| && ops[k].code == DATA_REF_CODE ==> ops[k].jmp.Some?
    modifies nodes`inUse
    ensures forall i: nat :: i in Used(nodes) <==> i < |ops| && Reachable(ops, i)
  {
    var op: OpNode? := first;
    ghost var k := 0;
    NodeAt(nodes, ops, first);
    assert RootsMarked(ops, Used(nodes), 0);
    hide Numbered, RootsMarked, Used, Reachable;
    while op != null
      invariant 0 <= k <= |nodes| && if op == null then k == |nodes| else IsNode(nodes, op) && op.pos == k
      invariant RootsMarked(ops, Used(nodes), k)
      decreases |nodes| - k
    {
      NodeAt(nodes, ops, op);
      MarkRoots(op, ops, nodes);
      NodeAt(nodes, ops, op);
      op := op.next;
      k := k + 1;
    }
    AllRootsMarked(ops, Used(nodes));
  }

  /** The pass over the directives. */
  method MarkDirectives(first: OpNode, ghost ops: seq<Op>, ghost nodes: seq<OpNode>)
    requires Numbered(nodes, ops) && IsNode(nodes, first) && first.pos == 0
    modifies nodes`inUse
    ensures forall i :: 0 <= i < |nodes| ==> nodes[i].inUse == (old(nodes[i].inUse) || IsDirective(ops[i].code))
  {
    var op: OpNode? := first;
    ghost var k := 0;
    while op != null
      invariant 0 <= k <= |nodes| && if op == null then k == |nodes| else IsNode(nodes, op) && op.pos == k
      invariant forall i :: 0 <= i < |nodes| ==> nodes[i].inUse == (old(nodes[i].inUse) || (i < k && IsDirective(ops[i].code)))
      decreases |nodes| - k
    {
      NodeAt(nodes, ops, op);
      if IsDirective(op.op.code) {
        SetInUse(op, ops, nodes);
      }
      NodeAt(nodes, ops, op);
      op := op.next;
      k := k + 1;
    }
  }

  // ---- Removal ------------------------------------------------------------------------

  predicate Stays(n: OpNode)
    reads n`inUse
  {
    n.inUse || n.op.code == FULL_SPILL
  }

  /** What is left of the first n operations. */
  ghost function Kept(nodes: seq<OpNode>, n: nat): (r: seq<OpNode>)
    requires n <= |nodes|
    reads nodes`inUse
    ensures |r| <= n && (forall k :: 0 <= k < |r| ==> r[k] in nodes[..n] && Stays(r[k]))
    ensures forall k :: 0 <= k < n && Stays(nodes[k]) ==> nodes[k] in r
  {
    if n == 0 then []
    else
      assert nodes[..n] == nodes[..n - 1] + [nodes[n - 1]];
      Kept(nodes, n - 1) + if Stays(nodes[n - 1]) then [nodes[n - 1]] else []
  }

  ghost predicate InOrder(r: seq<OpNode>, n: nat) {
    && (forall a, b :: 0 <= a < b < |r| ==> r[a].pos < r[b].pos)
    && (forall a :: 0 <= a < |r| ==> r[a].pos < n)
  }

  /** The operations left are in their old order. */
  lemma EmptyInOrder()
    ensures InOrder([], 0)
  {
  }

  lemma OneMoreInOrder(r: seq<OpNode>, node: OpNode)
    requires node.pos >= 0 && InOrder(r, node.pos)
    ensures InOrder(r, node.pos + 1) && InOrder(r + [node], node.pos + 1)
  {
  }

  lemma {:induction false} KeptInOrder(nodes: seq<OpNode>, n: nat)
    requires n <= |nodes| && forall i :: 0 <= i < |nodes| ==> nodes[i].pos == i
    ensures InOrder(Kept(nodes, n), n)
  {
    hide InOrder, Kept, Stays;
    KeptNext(nodes, n);
    if n == 0 {
      EmptyInOrder();
    } else {
      KeptInOrder(nodes, n - 1);
      OneMoreInOrder(Kept(nodes, n - 1), nodes[n - 1]);
    }
  }

  lemma KeptNext(nodes: seq<OpNode>, n: nat)
    requires n <= |nodes|
    ensures Kept(nodes, n) ==
      if n == 0 then [] else if Stays(nodes[n - 1]) then Kept(nodes, n - 1) + [nodes[n - 1]] else Kept(nodes, n - 1)
  {
  }

  /** The list when the pass has come to operation j. */
  ghost function Remaining(nodes: seq<OpNode>, j: nat): (r: seq<OpNode>)
    requires j <= |nodes|
    reads nodes`inUse
    ensures forall k :: 0 <= k < |r| ==> r[k] in nodes
    ensures j < |nodes| ==> |Kept(nodes, j)| < |r| && r[|Kept(nodes, j)|] == nodes[j]
    ensures j < |nodes| ==> NextOf(r, |Kept(nodes, j)|) == NextOf(nodes, j)
  {
    Kept(nodes, j) + nodes[j..]
  }

  lemma RemainingNext(nodes: seq<OpNode>, j: nat)
    requires j < |nodes|
    ensures var r, k := Remaining(nodes, j), |Kept(nodes, j)|;
      && Remaining(nodes, j + 1) == (if Stays(nodes[j]) then r else r[..k] + r[k + 1..])
      && |Kept(nodes, j + 1)| == k + if Stays(nodes[j]) then 1 else 0
  {
  }

  lemma LinkedNext(nodes: seq<OpNode>, k: nat)
    requires Linked(nodes) && k < |nodes|
    ensures nodes[k].next == NextOf(nodes, k)
  {
  }

  /** One operation of the last pass. */
  method KeepOrDelete(op: OpNode, ghost nodes: seq<OpNode>, ghost j: nat) returns (next: OpNode?)
    requires j < |nodes| && nodes[j] == op && Linked(Remaining(nodes, j)) && (|Kept(nodes, j)| > 0 || Stays(op))
    modifies nodes`prev, nodes`next
    ensures Linked(Remaining(nodes, j + 1)) && next == NextOf(nodes, j) && |Kept(nodes, j + 1)| > 0
  {
    hide Kept, Linked, NextOf;
    ghost var r, k := Remaining(nodes, j), |Kept(nodes, j)|;
    RemainingNext(nodes, j);
    LinkedNext(r, k);
    next := op.next;
    hide Remaining;
    if !Stays(op) {
      Delete(op, r, k);
    }
  }

  /** The last pass: operations that are not in use leave the list. */
  method RemoveDead(first: OpNode, ghost nodes: seq<OpNode>) returns (ghost kept: seq<OpNode>)
    requires Linked(nodes) && |nodes| > 0 && nodes[0] == first && first.inUse
    modifies nodes`prev, nodes`next
    ensures kept == Kept(nodes, |nodes|) && Linked(kept)
  {
    hide Linked, Remaining, Kept;
    var op: OpNode? := first;
    ghost var j := 0;
    RemainingEnds(nodes);
    while op != null
      invariant 0 <= j <= |nodes| && if op == null then j == |nodes| else j < |nodes| && nodes[j] == op
      invariant Linked(Remaining(nodes, j)) && (j > 0 ==> |Kept(nodes, j)| > 0)
      decreases |nodes| - j
    {
      op := KeepOrDelete(op, nodes, j);
      j := j + 1;
    }
    kept := Kept(nodes, |nodes|);
    RemainingEnds(nodes);
  }

  lemma RemainingEnds(nodes: seq<OpNode>)
    ensures Remaining(nodes, 0) == nodes && Remaining(nodes, |nodes|) == Kept(nodes, |nodes|)
  {
  }

  /** The directives, by their codes. */
  predicate Stands(code: Code) {
    code in {CODESTART, DATA_BYTE, DATA_REF_CODE, DATA_REF_DATA, CODE_ALIGN, LABEL, PATCH, COMMENT, MARK}
  }

  lemma DirectivesStand(code: Code)
    ensures IsDirective(code) <==> Stands(code)
  {
  }

  /** `jit_dead_code_analysis`: marks are reachability and the directives, and what is
      removed is exactly what has no mark, FULL_SPILL aside. */
  method DeadCodeAnalysis(first: OpNode, remove: bool, ghost ops: seq<Op>, ghost nodes: seq<OpNode>) returns (ghost kept: seq<OpNode>)
    requires Numbered(nodes, ops) && IsNode(nodes, first) && first.pos == 0
    requires forall k :: 0 <= k < |ops| && ops[k].code == DATA_REF_CODE ==> ops[k].jmp.Some?
    requires Stands(first.op.code) || first.op.code == PROLOG
    modifies nodes
    ensures forall i :: 0 <= i < |nodes| ==> (nodes[i].inUse <==> Reachable(ops, i) || Stands(ops[i].code))
    ensures kept == (if remove then Kept(nodes, |nodes|) else nodes) && Linked(kept) && InOrder(kept, |nodes|)
  {
    hide Stands, IsDirective, Kept, InOrder, Used, Reachable, Linked;
    forall code
      ensures IsDirective(code) <==> Stands(code)
    {
      DirectivesStand(code);
    }
    kept := MarkAndRemove(first, remove, ops, nodes);
  }

  method MarkAndRemove(first: OpNode, remove: bool, ghost ops: seq<Op>, ghost nodes: seq<OpNode>) returns (ghost kept: seq<OpNode>)
    requires Numbered(nodes, ops) && IsNode(nodes, first) && first.pos == 0
    requires forall k :: 0 <= k < |ops| && ops[k].code == DATA_REF_CODE ==> ops[k].jmp.Some?
    requires IsDirective(first.op.code) || first.op.code == PROLOG
    modifies nodes
    ensures forall i :: 0 <= i < |nodes| ==> (nodes[i].inUse <==> Reachable(ops, i) || IsDirective(ops[i].code))
    ensures kept == (if remove then Kept(nodes, |nodes|) else nodes) && Linked(kept) && InOrder(kept, |nodes|)
  {
    PositionsAre(nodes, ops);
    ClearMarks(first, ops, nodes);
    MarkOrdinary(first, ops, nodes);
    assert forall i :: 0 <= i < |nodes| ==> (nodes[i].inUse <==> i in Used(nodes));
    MarkDirectives(first, ops, nodes);
    kept := nodes;
    if remove {
      FirstStays(first, ops, nodes);
      kept := RemoveDead(first, nodes);
      KeptInOrder(nodes, |nodes|);
    }
  }

  lemma PositionsAre(nodes: seq<OpNode>, ops: seq<Op>)
    requires Numbered(nodes, ops)
    ensures forall i :: 0 <= i < |nodes| ==> nodes[i].pos == i
  {
    forall i | 0 <= i < |nodes|
      ensures nodes[i].pos == i
    {
      assert nodes[i].op == ops[i];
    }
  }

  lemma FirstStays(first: OpNode, ops: seq<Op>, nodes: seq<OpNode>)
    requires Numbered(nodes, ops) && IsNode(nodes, first) && first.pos == 0
    requires IsDirective(first.op.code) || first.op.code == PROLOG
    requires forall i :: 0 <= i < |nodes| ==> (nodes[i].inUse <==> Reachable(ops, i) || IsDirective(ops[i].code))
    ensures Linked(nodes) && first.inUse
  {
    NodeAt(nodes, ops, first);
    if first.op.code == PROLOG {
      ReachSelf(ops, 0);
      assert Root(ops, 0);
    }
    assert nodes[0].inUse <==> Reachable(ops, 0) || IsDirective(ops[0].code);
  }

  method ClearMarks(first: OpNode, ghost ops: seq<Op>, ghost nodes: seq<OpNode>)
    requires Numbered(nodes, ops) && IsNode(nodes, first) && first.pos == 0
    modifies nodes`inUse
    ensures Used(nodes) == {}
  {
    var op: OpNode? := first;
    ghost var k := 0;
    while op != null
      invariant 0 <= k <= |nodes| && if op == null then k == |nodes| else IsNode(nodes, op) && op.pos == k
      invariant forall i :: 0 <= i < k ==> !nodes[i].inUse
      decreases |nodes| - k
    {
      NodeAt(nodes, ops, op);
      op.inUse := false;
      NodeAt(nodes, ops, op);
      op := op.next;
      k := k + 1;
    }
  }
}
