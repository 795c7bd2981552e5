/** The operation list: a doubly linked list spliced in place. */
module OpList {
  import opened Ops

  /** `struct jit_op`, as far as list structure goes.  `pos` is where the operation
      stood when its jump targets were numbered. */
  class OpNode {
    const op: Op
    const pos: nat
    var prev: OpNode?
    var next: OpNode?
    var jmpAddr: OpNode?
    var inUse: bool

    constructor (op: Op, pos: nat)
      ensures this.op == op && this.pos == pos && prev == null && next == null && jmpAddr == null && inUse
    {
      this.op, this.pos := op, pos;
      prev, next, jmpAddr, inUse := null, null, null, true;
    }
  }

  function PrevOf(nodes: seq<OpNode>, i: nat): OpNode?
    requires i < |nodes|
  {
    if i == 0 then null else nodes[i - 1]
  }

  function NextOf(nodes: seq<OpNode>, i: nat): OpNode?
    requires i < |nodes|
  {
    if i + 1 == |nodes| then null else nodes[i + 1]
  }

  /** The list that runs through these nodes. */
  ghost predicate Linked(nodes: seq<OpNode>)
    reads nodes`prev, nodes`next
  {
    && (forall i, j :: 0 <= i < j < |nodes| ==> nodes[i] != nodes[j])
    && (forall i {:trigger nodes[i].prev} :: 0 <= i < |nodes| ==> nodes[i].prev == PrevOf(nodes, i))
    && (forall i {:trigger nodes[i].next} :: 0 <= i < |nodes| ==> nodes[i].next == NextOf(nodes, i))
  }

  /** The list of `nodes` but for the links around place `k`, where `n` now is. */
  ghost predicate Opened(nodes: seq<OpNode>, k: nat, n: OpNode)
    requires k <= |nodes|
    reads nodes, n
  {
    && n !in nodes && (forall i, j :: 0 <= i < j < |nodes| ==> nodes[i] != nodes[j])
    && (forall i {:trigger nodes[i].prev} :: 0 <= i < |nodes| ==> nodes[i].prev == if i == k then n else PrevOf(nodes, i))
    && (forall i {:trigger nodes[i].next} :: 0 <= i < |nodes| ==> nodes[i].next == if i + 1 == k then n else NextOf(nodes, i))
    && n.prev == (if k == 0 then null else nodes[k - 1])
    && n.next == (if k == |nodes| then null else nodes[k])
  }

  lemma InsertedLinks(nodes: seq<OpNode>, k: nat, n: OpNode)
    requires k <= |nodes| && Opened(nodes, k, n)
    ensures Linked(nodes[..k] + [n] + nodes[k..])
  {
    var longer := nodes[..k] + [n] + nodes[k..];
    forall i | 0 <= i < |longer|
      ensures longer[i].prev == PrevOf(longer, i) && longer[i].next == NextOf(longer, i)
    {
      if i < k {
        assert longer[i] == nodes[i];
      } else if i > k {
        assert longer[i] == nodes[i - 1];
      }
    }
  }

  /** `jit_op_append`. */
  method Append(op: OpNode, appended: OpNode, ghost nodes: seq<OpNode>, ghost k: nat)
    requires Linked(nodes) && k < |nodes| && nodes[k] == op && appended !in nodes
    modifies nodes`prev, nodes`next, appended`prev, appended`next
    ensures Linked(nodes[..k + 1] + [appended] + nodes[k + 1..])
  {
    appended.next := op.next;
    if op.next != null {
      op.next.prev := appended;
    }
    appended.prev := op;
    op.next := appended;
    InsertedLinks(nodes, k + 1, appended);
  }

  /** `jit_op_prepend`. */
  method Prepend(op: OpNode, prepended: OpNode, ghost nodes: seq<OpNode>, ghost k: nat)
    requires Linked(nodes) && k < |nodes| && nodes[k] == op && prepended !in nodes
    modifies nodes`prev, nodes`next, prepended`prev, prepended`next
    ensures Linked(nodes[..k] + [prepended] + nodes[k..])
  {
    prepended.prev := op.prev;
    if op.prev != null {
      op.prev.next := prepended;
    }
    prepended.next := op;
    op.prev := prepended;
    InsertedLinks(nodes, k, prepended);
  }

  /** `jit_op_delete`, of an operation that is not the first. */
  method Delete(op: OpNode, ghost nodes: seq<OpNode>, ghost k: nat)
    requires Linked(nodes) && 0 < k < |nodes| && nodes[k] == op
    modifies nodes`prev, nodes`next
    ensures Linked(nodes[..k] + nodes[k + 1..])
    ensures op.next == old(op.next)
  {
    op.prev.next := op.next;
    if op.next != null {
      op.next.prev := op.prev;
    }
    ghost var shorter := nodes[..k] + nodes[k + 1..];
    forall i | 0 <= i < |shorter|
      ensures shorter[i].prev == PrevOf(shorter, i) && shorter[i].next == NextOf(shorter, i)
    {
      assert shorter[i] == if i < k then nodes[i] else nodes[i + 1];
    }
  }
}
