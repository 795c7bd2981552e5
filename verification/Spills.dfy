/** `jit_prepare_spills_on_jmpr_targets`: for every code reference a FULL_SPILL right
    in front of the operation whose address it takes. */
module Spills {
  import opened Ops
  import opened OpList
  import opened Moving
  import opened Insertion
  import opened SpillList

  /** The nodes hold these operations, and every code reference leads to the node of
      its target. */
  ghost predicate RefsLead(nodes: seq<OpNode>, ops: seq<Op>)
    reads nodes`jmpAddr
  {
    && |nodes| == |ops| && (forall i :: 0 <= i < |nodes| ==> nodes[i].op == ops[i])
    && forall i {:trigger nodes[i].jmpAddr} :: 0 <= i < |nodes| && IsRef(ops[i]) ==>
         ops[i].jmp.Some? && ops[i].jmp.value < |nodes| && nodes[i].jmpAddr == nodes[ops[i].jmp.value]
  }

  /** What stands at place p, which belongs to operation i. */
  ghost predicate StandsAt(after: seq<OpNode>, nodes: seq<OpNode>, pre: seq<seq<Op>>, i: nat, p: nat)
    requires |pre| == |nodes| && Owns(pre, i, p) && p < |after|
  {
    if p == Place(pre, i) then after[p] == nodes[i] else after[p].op == pre[i][p - Start(pre, i)] && after[p] !in nodes
  }

  /** The list is the old one with these operations put in front of its operations. */
  ghost predicate Arranged(after: seq<OpNode>, nodes: seq<OpNode>, pre: seq<seq<Op>>) {
    && |pre| == |nodes| && |after| == Start(pre, |pre|)
    && forall i: nat, p: nat :: Owns(pre, i, p) && p < |after| ==> StandsAt(after, nodes, pre, i, p)
  }

  /** What a place before an operation holds. */
  lemma StandsInFront(after: seq<OpNode>, nodes: seq<OpNode>, pre: seq<seq<Op>>, i: nat, p: nat)
    requires Arranged(after, nodes, pre) && i < |nodes| && Start(pre, i) <= p < Place(pre, i)
    ensures p < |after| && after[p].op == pre[i][p - Start(pre, i)]
  {
    StartMonotone(pre, i + 1, |pre|);
    NextStart(pre, i);
    assert StandsAt(after, nodes, pre, i, p);
  }

  lemma StandsThere(after: seq<OpNode>, nodes: seq<OpNode>, pre: seq<seq<Op>>, i: nat)
    requires Arranged(after, nodes, pre) && i < |nodes|
    ensures Place(pre, i) < |after| && after[Place(pre, i)] == nodes[i]
  {
    NextStart(pre, i);
    StartMonotone(pre, i + 1, |pre|);
    assert StandsAt(after, nodes, pre, i, Place(pre, i));
  }

  lemma {:induction false} NothingInFront(ops: seq<Op>, spill: Op, n: nat)
    requires n <= |ops|
    ensures Start(SpillsOf(ops, spill, 0), n) == n
  {
    if n > 0 {
      NothingInFront(ops, spill, n - 1);
    }
  }

  lemma ArrangedAtFirst(nodes: seq<OpNode>, ops: seq<Op>, spill: Op)
    requires |nodes| == |ops|
    ensures Arranged(nodes, nodes, SpillsOf(ops, spill, 0))
  {
    var pre := SpillsOf(ops, spill, 0);
    NothingInFront(ops, spill, |ops|);
    forall i: nat, p: nat | Owns(pre, i, p) && p < |nodes|
      ensures StandsAt(nodes, nodes, pre, i, p)
    {
      NothingInFront(ops, spill, i);
    }
  }

  // ---- One more in front ----------------------------------------------------------------------

  function OneMore(pre: seq<seq<Op>>, t: nat, spill: Op): (r: seq<seq<Op>>)
    requires t < |pre|
    ensures |r| == |pre| && r[t] == pre[t] + [spill] && forall i :: 0 <= i < |pre| && i != t ==> r[i] == pre[i]
  {
    pre[t := pre[t] + [spill]]
  }

  lemma {:induction false} OneMoreStart(pre: seq<seq<Op>>, t: nat, spill: Op, i: nat)
    requires t < |pre| && i <= |pre|
    ensures Start(OneMore(pre, t, spill), i) == Start(pre, i) + if t < i then 1 else 0
  {
    if i > 0 {
      OneMoreStart(pre, t, spill, i - 1);
    }
  }

  function Inserted(nodes: seq<OpNode>, k: nat, n: OpNode): seq<OpNode>
    requires k <= |nodes|
  {
    nodes[..k] + [n] + nodes[k..]
  }

  /** Where the owner of a place of the longer list stood before. */
  lemma OneMoreOwner(pre: seq<seq<Op>>, t: nat, spill: Op, i: nat, p: nat)
    requires t < |pre| && Owns(OneMore(pre, t, spill), i, p)
    ensures p < Place(pre, t) ==> i <= t && Owns(pre, i, p)
    ensures p > Place(pre, t) ==> t <= i && Owns(pre, i, p - 1)
    ensures p == Place(pre, t) ==> i == t
    ensures Place(OneMore(pre, t, spill), i) == Place(pre, i) + if t <= i then 1 else 0
    ensures Start(OneMore(pre, t, spill), i) == Start(pre, i) + if t < i then 1 else 0
  {
    OneMoreStart(pre, t, spill, i);
    hide Start;
    if i < t {
      PlacesInOrder(pre, i, t);
    } else if t < i {
      PlacesInOrder(pre, t, i);
    }
  }

  lemma ArrangedStill(after: seq<OpNode>, nodes: seq<OpNode>, pre: seq<seq<Op>>, t: nat, n: OpNode)
    requires Arranged(after, nodes, pre) && t < |nodes| && n !in nodes
    ensures Place(pre, t) < |after| && Arranged(Inserted(after, Place(pre, t), n), nodes, OneMore(pre, t, n.op))
  {
    hide Start;
    StandsThere(after, nodes, pre, t);
    OneMoreStart(pre, t, n.op, |pre|);
    var longer, more := Inserted(after, Place(pre, t), n), OneMore(pre, t, n.op);
    forall i: nat, p: nat | Owns(more, i, p) && p < |longer|
      ensures StandsAt(longer, nodes, more, i, p)
    {
      OneMoreOwner(pre, t, n.op, i, p);
      if p < Place(pre, t) {
        assert StandsAt(after, nodes, pre, i, p);
      } else if p > Place(pre, t) {
        assert StandsAt(after, nodes, pre, i, p - 1);
      }
    }
  }

  /** A reference counts for its target alone. */
  lemma RefCounts(ops: seq<Op>, spill: Op, j: nat)
    requires j < |ops| && (IsRef(ops[j]) ==> ops[j].jmp.Some? && ops[j].jmp.value < |ops|)
    ensures SpillsOf(ops, spill, j + 1) ==
      if IsRef(ops[j]) then OneMore(SpillsOf(ops, spill, j), ops[j].jmp.value, spill) else SpillsOf(ops, spill, j)
  {
    var pre, more := SpillsOf(ops, spill, j), SpillsOf(ops, spill, j + 1);
    forall i: nat | i < |ops|
      ensures more[i] == if IsRef(ops[j]) && ops[j].jmp.value == i then pre[i] + [spill] else pre[i]
    {
      assert |more[i]| == |pre[i]| + if IsRef(ops[j]) && ops[j].jmp.value == i then 1 else 0;
    }
  }

  // ---- The pass ---------------------------------------------------------------------------------

  lemma RefAt(nodes: seq<OpNode>, ops: seq<Op>, j: nat)
    requires RefsLead(nodes, ops) && j < |nodes|
    ensures |nodes| == |ops| && nodes[j].op == ops[j]
    ensures IsRef(ops[j]) ==> ops[j].jmp.Some? && ops[j].jmp.value < |nodes| && nodes[j].jmpAddr == nodes[ops[j].jmp.value]
  {
    var target := nodes[j].jmpAddr;
  }

  /** One reference: a spill in front of its target. */
  method Guard(op: OpNode, spill: Op, ghost ops: seq<Op>, ghost nodes: seq<OpNode>, ghost after: seq<OpNode>, ghost j: nat)
    returns (newop: OpNode, ghost longer: seq<OpNode>)
    requires Linked(after) && RefsLead(nodes, ops) && j < |nodes| && nodes[j] == op && IsRef(op.op)
    requires |nodes| == |ops| && Arranged(after, nodes, SpillsOf(ops, spill, j))
    modifies after`prev, after`next
    ensures Linked(longer) && Arranged(longer, nodes, SpillsOf(ops, spill, j + 1)) && fresh(newop)
    ensures forall n :: n in longer ==> n in after || n == newop
  {
    hide Arranged, SpillsOf, Linked, RefsLead;
    newop := new OpNode(spill, 0);
    RefAt(nodes, ops, j);
    ghost var pre, t := SpillsOf(ops, spill, j), ops[j].jmp.value;
    StandsThere(after, nodes, pre, t);
    ArrangedStill(after, nodes, pre, t, newop);
    RefCounts(ops, spill, j);
    Prepend(op.jmpAddr, newop, after, Place(pre, t));
    longer := Inserted(after, Place(pre, t), newop);
  }

  /** The pass has come to place `at`, the references before operation j being done. */
  ghost predicate ComeTo(after: seq<OpNode>, nodes: seq<OpNode>, ops: seq<Op>, spill: Op, j: nat, at: nat) {
    && j <= |nodes| == |ops| && Arranged(after, nodes, SpillsOf(ops, spill, j))
    && Start(SpillsOf(ops, spill, j), j) <= at <= Place(SpillsOf(ops, spill, j), j)
  }

  /** A spill is passed by. */
  lemma PassSpill(after: seq<OpNode>, nodes: seq<OpNode>, ops: seq<Op>, spill: Op, j: nat, at: nat)
    requires ComeTo(after, nodes, ops, spill, j, at) && at < Place(SpillsOf(ops, spill, j), j)
    ensures at < |after| && after[at].op == spill && ComeTo(after, nodes, ops, spill, j, at + 1) && j < |nodes|
  {
    hide Arranged, Start;
    StandsInFront(after, nodes, SpillsOf(ops, spill, j), j, at);
  }

  /** Behind operation j. */
  lemma PassOp(after: seq<OpNode>, nodes: seq<OpNode>, ops: seq<Op>, spill: Op, j: nat)
    requires j < |nodes| == |ops| && Arranged(after, nodes, SpillsOf(ops, spill, j + 1))
    ensures var at := Place(SpillsOf(ops, spill, j + 1), j);
      at < |after| && after[at] == nodes[j] && ComeTo(after, nodes, ops, spill, j + 1, at + 1)
  {
    hide Arranged;
    var pre := SpillsOf(ops, spill, j + 1);
    StandsThere(after, nodes, pre, j);
    NextStart(pre, j);
  }

  lemma AtOp(after: seq<OpNode>, nodes: seq<OpNode>, ops: seq<Op>, spill: Op, j: nat, at: nat)
    requires ComeTo(after, nodes, ops, spill, j, at) && at == Place(SpillsOf(ops, spill, j), j) && at < |after|
    ensures j < |nodes| && after[at] == nodes[j]
  {
    hide Start;
    var pre := SpillsOf(ops, spill, j);
    assert |after| == Start(pre, |pre|);
    StandsThere(after, nodes, pre, j);
  }

  lemma NextInList(after: seq<OpNode>, at: nat)
    requires Linked(after) && at < |after|
    ensures after[at].next == if at + 1 < |after| then after[at + 1] else null
  {
    assert after[at].next == NextOf(after, at);
  }

  /** One operation of the list. */
  method Visit(op: OpNode, spill: Op, ghost ops: seq<Op>, ghost nodes: seq<OpNode>, ghost was: seq<OpNode>, ghost j: nat, ghost at: nat)
    returns (ghost after: seq<OpNode>, ghost j': nat, ghost at': nat)
    requires Linked(was) && RefsLead(nodes, ops) && !IsRef(spill) && ComeTo(was, nodes, ops, spill, j, at)
    requires at < |was| && was[at] == op
    modifies was`prev, was`next
    ensures Linked(after) && ComeTo(after, nodes, ops, spill, j', at') && 0 < at' <= |after| && after[at' - 1] == op
    ensures (j' == j + 1 && j < |nodes|) || (j' == j && after == was && at' == at + 1)
    ensures forall n :: n in after ==> n in was || fresh(n)
  {
    hide Arranged, SpillsOf, Linked, RefsLead, Start, ComeTo, Place;
    after := was;
    if IsRef(op.op) {
      NotInFront(was, nodes, ops, spill, j, at);
      ghost var newop;
      newop, after := Guard(op, spill, ops, nodes, was, j);
      PassOp(after, nodes, ops, spill, j);
      j', at' := j + 1, Place(SpillsOf(ops, spill, j + 1), j) + 1;
    } else {
      j', at' := PassOther(was, nodes, ops, spill, j, at);
    }
  }

  lemma NotInFront(after: seq<OpNode>, nodes: seq<OpNode>, ops: seq<Op>, spill: Op, j: nat, at: nat)
    requires ComeTo(after, nodes, ops, spill, j, at) && at < |after| && IsRef(after[at].op) && !IsRef(spill)
    ensures |nodes| == |ops| && j < |nodes| && after[at] == nodes[j] && Arranged(after, nodes, SpillsOf(ops, spill, j))
  {
    hide Arranged, Start;
    if at < Place(SpillsOf(ops, spill, j), j) {
      PassSpill(after, nodes, ops, spill, j, at);
      assert false;
    }
    AtOp(after, nodes, ops, spill, j, at);
  }

  lemma PassOther(after: seq<OpNode>, nodes: seq<OpNode>, ops: seq<Op>, spill: Op, j: nat, at: nat) returns (j': nat, at': nat)
    requires ComeTo(after, nodes, ops, spill, j, at) && at < |after| && !IsRef(after[at].op)
    requires RefsLead(nodes, ops)
    ensures at' == at + 1 && ComeTo(after, nodes, ops, spill, j', at') && ((j' == j + 1 && j < |nodes|) || j' == j)
  {
    hide Arranged, Start;
    at' := at + 1;
    if at < Place(SpillsOf(ops, spill, j), j) {
      PassSpill(after, nodes, ops, spill, j, at);
      j' := j;
    } else {
      AtOp(after, nodes, ops, spill, j, at);
      RefAt(nodes, ops, j);
      RefCounts(ops, spill, j);
      PassOp(after, nodes, ops, spill, j);
      j' := j + 1;
    }
  }

  lemma AtFirst(nodes: seq<OpNode>, ops: seq<Op>, spill: Op)
    requires |nodes| == |ops|
    ensures ComeTo(nodes, nodes, ops, spill, 0, 0)
  {
    ArrangedAtFirst(nodes, ops, spill);
  }

  lemma AtEnd(after: seq<OpNode>, nodes: seq<OpNode>, ops: seq<Op>, spill: Op, j: nat, at: nat)
    requires ComeTo(after, nodes, ops, spill, j, at) && at == |after|
    ensures j == |nodes| == |ops| && Arranged(after, nodes, SpillsOf(ops, spill, |ops|))
  {
    hide Start;
    var pre := SpillsOf(ops, spill, j);
    assert |after| == Start(pre, |pre|);
    if j < |nodes| {
      StandsThere(after, nodes, pre, j);
    }
  }

  lemma SameLength(nodes: seq<OpNode>, ops: seq<Op>)
    requires RefsLead(nodes, ops)
    ensures |nodes| == |ops|
  {
  }

  /** The pass: the list becomes the old one with, in front of every operation, one
      spill for each reference to it. */
  method PrepareSpills(first: OpNode, spill: Op, ghost ops: seq<Op>, ghost nodes: seq<OpNode>) returns (ghost after: seq<OpNode>)
    requires Linked(nodes) && |nodes| > 0 && nodes[0] == first && RefsLead(nodes, ops) && !IsRef(spill)
    modifies nodes`prev, nodes`next
    ensures Linked(after) && Arranged(after, nodes, SpillsOf(ops, spill, |ops|))
  {
    hide Arranged, SpillsOf, Linked, RefsLead, ComeTo;
    after := nodes;
    ghost var j, at := 0, 0;
    SameLength(nodes, ops);
    AtFirst(nodes, ops, spill);
    var op: OpNode? := first;
    while op != null
      invariant Linked(after) && at <= |after| && op == (if at < |after| then after[at] else null)
      invariant RefsLead(nodes, ops) && ComeTo(after, nodes, ops, spill, j, at)
      invariant forall n :: n in after ==> n in nodes || fresh(n)
      decreases |nodes| - j, |after| - at
    {
      assert forall i :: 0 <= i < |after| ==> after[i] in after && (after[i] in nodes || fresh(after[i]));
      after, j, at := Visit(op, spill, ops, nodes, after, j, at);
      NextInList(after, at - 1);
      op := op.next;
    }
    AtEnd(after, nodes, ops, spill, j, at);
  }

  /** The operations of that list, jumps following, are those of the longer list. */
  lemma ArrangedIsLonger(after: seq<OpNode>, nodes: seq<OpNode>, ops: seq<Op>, spill: Op)
    requires RefsLead(nodes, ops) && spill.jmp.None?
    ensures |nodes| == |ops|
    ensures Arranged(after, nodes, SpillsOf(ops, spill, |ops|)) ==>
      var pre := SpillsOf(ops, spill, |ops|);
      |after| == |Longer(pre, ops)| && forall p :: 0 <= p < |after| ==> Longer(pre, ops)[p] == MovedOp(Places(pre), after[p].op)
  {
    hide Longer, Start, Arranged;
    var pre := SpillsOf(ops, spill, |ops|);
    if Arranged(after, nodes, pre) {
      LongerLength(pre, ops);
      assert |after| == Start(pre, |pre|) by { ArrangedLength(after, nodes, pre); }
      forall p: nat | p < |after|
        ensures Longer(pre, ops)[p] == MovedOp(Places(pre), after[p].op)
      {
        var i := OwnerOf(pre, |pre|, p);
        LongerAt(pre, ops, i);
        if p < Place(pre, i) {
          LongerBefore(pre, ops, i, p - Start(pre, i));
          StandsInFront(after, nodes, pre, i, p);
        } else {
          StandsThere(after, nodes, pre, i);
        }
      }
    }
  }

  lemma ArrangedLength(after: seq<OpNode>, nodes: seq<OpNode>, pre: seq<seq<Op>>)
    requires Arranged(after, nodes, pre)
    ensures |after| == Start(pre, |pre|)
  {
  }
}
