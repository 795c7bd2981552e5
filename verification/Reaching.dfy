/** The operations a run can come to, as the least set control does not leave. */
module Reaching {
  import opened Ops
  import opened Rewrites

  ghost predicate RunPath(ops: seq<Op>, targets: set<nat>, path: seq<nat>) {
    && |path| > 0 && (forall k :: 0 <= k < |path| ==> path[k] < |ops|)
    && (forall k :: 0 <= k < |path| - 1 ==> Goes(ops, targets, path[k], path[k + 1]))
  }

  ghost predicate ComesTo(ops: seq<Op>, targets: set<nat>, q: nat, i: nat) {
    exists path :: RunPath(ops, targets, path) && path[0] == q && path[|path| - 1] == i
  }

  /** All that a run from q can come to. */
  ghost function RunSet(ops: seq<Op>, targets: set<nat>, q: nat): set<nat> {
    set i: nat | i < |ops| && ComesTo(ops, targets, q, i)
  }

  lemma RunSetEncloses(ops: seq<Op>, targets: set<nat>, q: nat)
    requires q < |ops|
    ensures q in RunSet(ops, targets, q) && Encloses(ops, targets, RunSet(ops, targets, q))
  {
    assert RunPath(ops, targets, [q]);
    forall i: nat, t: nat | i in RunSet(ops, targets, q) && i < |ops| && Goes(ops, targets, i, t)
      ensures t in RunSet(ops, targets, q)
    {
      var path :| RunPath(ops, targets, path) && path[0] == q && path[|path| - 1] == i;
      var longer := path + [t];
      assert forall k :: 0 <= k < |longer| - 1 ==> longer[k] == path[k];
      assert RunPath(ops, targets, longer) && longer[|longer| - 1] == t;
    }
  }

  lemma {:induction false} PathStays(ops: seq<Op>, targets: set<nat>, reach: set<nat>, path: seq<nat>)
    requires Encloses(ops, targets, reach) && RunPath(ops, targets, path) && path[0] in reach
    ensures path[|path| - 1] in reach
  {
    if |path| > 1 {
      assert Goes(ops, targets, path[0], path[1]);
      assert forall k :: 0 <= k < |path[1..]| ==> path[1..][k] == path[k + 1];
      PathStays(ops, targets, reach, path[1..]);
    }
  }

  /** No set that control stays in is smaller. */
  lemma RunSetIsLeast(ops: seq<Op>, targets: set<nat>, q: nat, reach: set<nat>)
    requires Encloses(ops, targets, reach) && q in reach
    ensures RunSet(ops, targets, q) <= reach
  {
    forall i | i in RunSet(ops, targets, q)
      ensures i in reach
    {
      var path :| RunPath(ops, targets, path) && path[0] == q && path[|path| - 1] == i;
      PathStays(ops, targets, reach, path);
    }
  }
}
