/** Control edges: the moves put in front of a jump so that the map expected at its
    target holds on arrival, and the test that none are needed. */
module EdgeRepair {
  import opened Ops
  import opened RegMap
  import opened RegAlloc
  import opened Machine
  import opened AllocMoves
  import Llrb

  /** The two maps disagree on where `v` is, seen from the one that places it. */
  predicate Differs(here: map<int, int>, there: map<int, int>, v: int) {
    v in here && !(v in there && there[v] == here[v])
  }

  /** `rmap_sync` in unload mode, over the keys in the order of the walk. */
  function Unloads(keys: seq<int>, cur: Rmap, tgt: Rmap, tgtLiveIn: set<int>): seq<RegOp> {
    if keys == [] then []
    else
      var v := keys[|keys| - 1];
      Unloads(keys[..|keys| - 1], cur, tgt, tgtLiveIn) +
      if v in tgtLiveIn && Differs(cur, tgt, v) then [UREG(v, cur[v])] else []
  }

  /** `rmap_sync` in load mode. */
  function Loads(keys: seq<int>, cur: Rmap, tgt: Rmap, liveOut: set<int>): seq<RegOp> {
    if keys == [] then []
    else
      var v := keys[|keys| - 1];
      Loads(keys[..|keys| - 1], cur, tgt, liveOut) +
      if v in liveOut && Differs(tgt, cur, v) then [LREG(tgt[v], v)] else []
  }

  /** `jump_adjustment`. */
  function RepairMoves(curKeys: seq<int>, tgtKeys: seq<int>, cur: Rmap, tgt: Rmap, liveOut: set<int>, tgtLiveIn: set<int>): seq<RegOp> {
    Unloads(curKeys, cur, tgt, tgtLiveIn) + Loads(tgtKeys, cur, tgt, liveOut)
  }

  /** `rmap_equal`. */
  predicate RmapEqual(cur: Rmap, tgt: Rmap, tgtLiveIn: set<int>) {
    && (forall v :: v in cur && v in tgtLiveIn ==> !Differs(cur, tgt, v))
    && (forall v :: v in tgt && v in tgtLiveIn ==> !Differs(tgt, cur, v))
  }

  /** It decides whether both maps have the same places for what is live at the target. */
  lemma EqualMapsAgree(cur: Rmap, tgt: Rmap, tgtLiveIn: set<int>)
    ensures RmapEqual(cur, tgt, tgtLiveIn) <==>
      forall v :: v in tgtLiveIn ==> (v in cur <==> v in tgt) && (v in cur && v in tgt ==> cur[v] == tgt[v])
  {
  }

  lemma {:induction false} ExecConcat<W, M>(a: seq<RegOp>, b: seq<RegOp>, s: Hw<W, M>)
    ensures ExecRegOps(a + b, s) == ExecRegOps(b, ExecRegOps(a, s))
  {
    if b == [] {
      assert a + b == a;
    } else {
      var c, m := b[..|b| - 1], b[|b| - 1];
      assert a + b == (a + c) + [m] && b == c + [m];
      ExecSnoc(a + c, m, s);
      ExecConcat(a, c, s);
    }
  }

  lemma {:induction false} UnloadsEffect<W, M>(keys: seq<int>, cur: Rmap, tgt: Rmap, tgtLiveIn: set<int>, s: Hw<W, M>)
    ensures var t := ExecRegOps(Unloads(keys, cur, tgt, tgtLiveIn), s);
      && t.hw == s.hw && SameRest(s, t)
      && forall v :: t.slot(v) == if v in keys && v in tgtLiveIn && Differs(cur, tgt, v) then s.hw(cur[v]) else s.slot(v)
  {
    hide Differs;
    if keys != [] {
      var ks, k := keys[..|keys| - 1], keys[|keys| - 1];
      assert keys == ks + [k];
      UnloadsEffect(ks, cur, tgt, tgtLiveIn, s);
      if k in tgtLiveIn && Differs(cur, tgt, k) {
        IsPlaced(cur, tgt, k);
        ExecSnoc(Unloads(ks, cur, tgt, tgtLiveIn), UREG(k, cur[k]), s);
      } else {
        assert Unloads(keys, cur, tgt, tgtLiveIn) == Unloads(ks, cur, tgt, tgtLiveIn);
      }
    }
  }

  ghost predicate Loaded(keys: seq<int>, cur: Rmap, tgt: Rmap, liveOut: set<int>, v: int) {
    v in keys && v in liveOut && Differs(tgt, cur, v)
  }

  lemma {:induction false} LoadsEffect<W, M>(keys: seq<int>, cur: Rmap, tgt: Rmap, liveOut: set<int>, s: Hw<W, M>)
    ensures var t := ExecRegOps(Loads(keys, cur, tgt, liveOut), s);
      && t.slot == s.slot && SameRest(s, t)
      && (forall v :: Loaded(keys, cur, tgt, liveOut, v) ==> t.hw(tgt[v]) == s.slot(v))
      && (forall h :: (forall v :: Loaded(keys, cur, tgt, liveOut, v) ==> tgt[v] != h) ==> t.hw(h) == s.hw(h))
  {
    hide Loaded, ExecRegOps, Differs;
    LoadedOn(keys, cur, tgt, liveOut);
    if keys == [] {
      NothingRun(s);
    } else {
      var ks, k := keys[..|keys| - 1], keys[|keys| - 1];
      assert keys == ks + [k];
      LoadsEffect(ks, cur, tgt, liveOut, s);
      if k in liveOut && Differs(tgt, cur, k) {
        IsPlaced(tgt, cur, k);
        ExecSnoc(Loads(ks, cur, tgt, liveOut), LREG(tgt[k], k), s);
        assert Loaded(keys, cur, tgt, liveOut, k);
      } else {
        assert Loads(keys, cur, tgt, liveOut) == Loads(ks, cur, tgt, liveOut);
      }
    }
  }

  lemma NothingRun<W, M>(s: Hw<W, M>)
    ensures ExecRegOps([], s) == s
  {
  }

  lemma IsPlaced(here: map<int, int>, there: map<int, int>, v: int)
    requires Differs(here, there, v)
    ensures v in here
  {
  }

  lemma LoadedOn(keys: seq<int>, cur: Rmap, tgt: Rmap, liveOut: set<int>)
    ensures forall v :: Loaded(keys, cur, tgt, liveOut, v) ==> v in tgt
    ensures keys == [] ==> forall v :: !Loaded(keys, cur, tgt, liveOut, v)
    ensures keys != [] ==>
      var ks, k := keys[..|keys| - 1], keys[|keys| - 1];
      forall v :: Loaded(keys, cur, tgt, liveOut, v) <==>
        Loaded(ks, cur, tgt, liveOut, v) || (v == k && k in liveOut && Differs(tgt, cur, k))
  {
    if keys != [] {
      var ks, k := keys[..|keys| - 1], keys[|keys| - 1];
      assert keys == ks + [k];
    }
  }

  /** Unloading every differing source mapping and then loading every differing
      target mapping establishes the target's map for every register needed
      there, whatever the two maps are and in whatever order they are walked. */
  lemma EdgeRepaired<W, M>(p: Pool, curKeys: seq<int>, tgtKeys: seq<int>, cur: Rmap, tgt: Rmap,
                           liveOut: set<int>, tgtLiveIn: set<int>, need: set<int>, regs: int -> W, s: Hw<W, M>)
    requires PoolOk(p) && InPool(p, tgt)
    requires (forall v :: v in cur ==> v in curKeys) && (forall v :: v in tgt ==> v in tgtKeys)
    requires need <= liveOut && need <= tgtLiveIn
    requires HoldsAll(cur, need, regs, s)
    ensures var t := ExecRegOps(RepairMoves(curKeys, tgtKeys, cur, tgt, liveOut, tgtLiveIn), s);
      HoldsAll(tgt, need, regs, t) && t.hw(p.fpReg) == s.hw(p.fpReg) && SameRest(s, t)
  {
    var us, ls := Unloads(curKeys, cur, tgt, tgtLiveIn), Loads(tgtKeys, cur, tgt, liveOut);
    var u := ExecRegOps(us, s);
    var t := ExecRegOps(ls, u);
    ExecConcat(us, ls, s);
    UnloadsEffect(curKeys, cur, tgt, tgtLiveIn, s);
    LoadsEffect(tgtKeys, cur, tgt, liveOut, u);
    assert forall v :: v in tgt ==> tgt[v] != p.fpReg;
    forall v | v in need && !IsAlias(v)
      ensures ValueOf(tgt, t, v) == regs(v)
    {
      assert ValueOf(cur, s, v) == regs(v);
      if v in tgt {
        if Differs(tgt, cur, v) {
          assert Loaded(tgtKeys, cur, tgt, liveOut, v);
        } else {
          assert forall w :: Loaded(tgtKeys, cur, tgt, liveOut, w) ==> w != v && tgt[w] != tgt[v];
        }
      }
    }
  }

  /** An edge that `rmap_equal` accepts needs no moves. */
  lemma EqualMapsNeedNoRepair<W, M>(cur: Rmap, tgt: Rmap, tgtLiveIn: set<int>, need: set<int>, regs: int -> W, s: Hw<W, M>)
    requires RmapEqual(cur, tgt, tgtLiveIn) && need <= tgtLiveIn && HoldsAll(cur, need, regs, s)
    ensures HoldsAll(tgt, need, regs, s)
  {
    assert forall v :: v in need && !IsAlias(v) ==> ValueOf(cur, s, v) == ValueOf(tgt, s, v);
  }

  // ---- The walks over the trees that hold the maps ---------------------------------

  /** The order in which `rmap_sync_aux` and its relatives visit a tree. */
  function Preorder(t: Llrb.Tree<int>): seq<int> {
    if t.Leaf? then [] else [t.key] + Preorder(t.left) + Preorder(t.right)
  }

  lemma {:induction false} PreorderCovers(t: Llrb.Tree<int>)
    ensures forall v :: v in Llrb.Contents(t) <==> v in Preorder(t)
  {
    if t.Node? {
      PreorderCovers(t.left);
      PreorderCovers(t.right);
    }
  }

  /** `rmap_sync_aux` itself. */
  function SyncTree(current: Llrb.Tree<int>, target: Llrb.Tree<int>, live: set<int>, unload: bool): seq<RegOp> {
    if current.Leaf? then []
    else
      SyncNode(current, target, live, unload) +
      SyncTree(current.left, target, live, unload) + SyncTree(current.right, target, live, unload)
  }

  function SyncNode(n: Llrb.Tree<int>, target: Llrb.Tree<int>, live: set<int>, unload: bool): seq<RegOp>
    requires n.Node?
  {
    var found := Llrb.Search(target, n.key);
    if n.key in live && (found.Leaf? || n.value != found.value)
    then [if unload then UREG(n.key, n.value) else LREG(n.value, n.key)] else []
  }

  function MovesFor(keys: seq<int>, here: map<int, int>, there: map<int, int>, live: set<int>, unload: bool): seq<RegOp> {
    if keys == [] then []
    else
      var v := keys[0];
      (if v in live && Differs(here, there, v) then [if unload then UREG(v, here[v]) else LREG(here[v], v)] else []) +
      MovesFor(keys[1..], here, there, live, unload)
  }

  lemma {:induction false} MovesForConcat(a: seq<int>, b: seq<int>, here: map<int, int>, there: map<int, int>, live: set<int>, unload: bool)
    ensures MovesFor(a + b, here, there, live, unload) ==
            MovesFor(a, here, there, live, unload) + MovesFor(b, here, there, live, unload)
  {
    if a == [] {
      assert a + b == b;
    } else {
      assert (a + b)[0] == a[0] && (a + b)[1..] == a[1..] + b;
      MovesForConcat(a[1..], b, here, there, live, unload);
    }
  }

  /** Either mode of the walk inserts just the moves of the map-level definition,
      in preorder. */
  lemma {:induction false} SyncTreeMoves(current: Llrb.Tree<int>, here: map<int, int>, target: Llrb.Tree<int>, live: set<int>, unload: bool)
    requires Llrb.Ordered(current) && Llrb.Ordered(target)
    requires forall v :: v in Llrb.Contents(current) ==> v in here && here[v] == Llrb.Contents(current)[v]
    ensures SyncTree(current, target, live, unload) ==
            MovesFor(Preorder(current), here, Llrb.Contents(target), live, unload)
  {
    if current.Node? {
      var there := Llrb.Contents(target);
      Llrb.ChildEntries(current);
      SyncTreeMoves(current.left, here, target, live, unload);
      SyncTreeMoves(current.right, here, target, live, unload);
      SyncNodeMoves(current, here, target, live, unload);
      var l, r := Preorder(current.left), Preorder(current.right);
      MovesForConcat([current.key] + l, r, here, there, live, unload);
      MovesForConcat([current.key], l, here, there, live, unload);
    }
  }

  lemma SyncNodeMoves(n: Llrb.Tree<int>, here: map<int, int>, target: Llrb.Tree<int>, live: set<int>, unload: bool)
    requires n.Node? && Llrb.Ordered(target) && n.key in here && here[n.key] == n.value
    ensures SyncNode(n, target, live, unload) == MovesFor([n.key], here, Llrb.Contents(target), live, unload)
  {
  }

  lemma {:induction false} MovesForUnloads(keys: seq<int>, cur: Rmap, tgt: Rmap, live: set<int>)
    ensures MovesFor(keys, cur, tgt, live, true) == Unloads(keys, cur, tgt, live)
  {
    if keys != [] {
      var ks, k := keys[..|keys| - 1], keys[|keys| - 1];
      assert keys == ks + [k];
      MovesForConcat(ks, [k], cur, tgt, live, true);
      MovesForUnloads(ks, cur, tgt, live);
    }
  }

  lemma {:induction false} MovesForLoads(keys: seq<int>, cur: Rmap, tgt: Rmap, live: set<int>)
    ensures MovesFor(keys, tgt, cur, live, false) == Loads(keys, cur, tgt, live)
  {
    if keys != [] {
      var ks, k := keys[..|keys| - 1], keys[|keys| - 1];
      assert keys == ks + [k];
      MovesForConcat(ks, [k], tgt, cur, live, false);
      MovesForLoads(ks, cur, tgt, live);
    }
  }

  /** `jump_adjustment` on the trees inserts the repair of the maps they denote. */
  lemma TreeWalksRepair(cur: Llrb.Tree<int>, tgt: Llrb.Tree<int>, liveOut: set<int>, tgtLiveIn: set<int>)
    requires Llrb.Valid(cur) && Llrb.Valid(tgt)
    requires Injective(Llrb.Contents(cur)) && Injective(Llrb.Contents(tgt))
    ensures SyncTree(cur, tgt, tgtLiveIn, true) + SyncTree(tgt, cur, liveOut, false) ==
            RepairMoves(Preorder(cur), Preorder(tgt), Llrb.Contents(cur), Llrb.Contents(tgt), liveOut, tgtLiveIn)
    ensures forall v :: v in Llrb.Contents(cur) <==> v in Preorder(cur)
    ensures forall v :: v in Llrb.Contents(tgt) <==> v in Preorder(tgt)
  {
    var c, t := Llrb.Contents(cur), Llrb.Contents(tgt);
    SyncTreeMoves(cur, c, tgt, tgtLiveIn, true);
    SyncTreeMoves(tgt, t, cur, liveOut, false);
    MovesForUnloads(Preorder(cur), c, t, tgtLiveIn);
    MovesForLoads(Preorder(tgt), c, t, liveOut);
    PreorderCovers(cur);
    PreorderCovers(tgt);
  }

  /** `rmap_subset` on trees. */
  predicate SubsetTree(current: Llrb.Tree<int>, target: Llrb.Tree<int>, live: set<int>) {
    current.Leaf? ||
    (var found := Llrb.Search(target, current.key);
     && (current.key in live ==> found.Node? && current.value == found.value)
     && SubsetTree(current.left, target, live) && SubsetTree(current.right, target, live))
  }

  lemma {:induction false} SubsetTreeDecides(current: Llrb.Tree<int>, target: Llrb.Tree<int>, live: set<int>)
    requires Llrb.Ordered(current) && Llrb.Ordered(target)
    ensures SubsetTree(current, target, live) <==>
            forall v :: v in Llrb.Contents(current) && v in live ==> !Differs(Llrb.Contents(current), Llrb.Contents(target), v)
  {
    if current.Node? {
      Llrb.ChildEntries(current);
      SubsetTreeDecides(current.left, target, live);
      SubsetTreeDecides(current.right, target, live);
    }
  }

  /** `rmap_is_associated_aux`: the first match of the walk is the only one. */
  function AssociatedTree(n: Llrb.Tree<int>, h: int): Option<int> {
    if n.Leaf? then None
    else if n.value == h then Some(n.key)
    else
      match AssociatedTree(n.left, h)
      case Some(v) => Some(v)
      case None => AssociatedTree(n.right, h)
  }

  lemma {:induction false} AssociatedTreeFinds(n: Llrb.Tree<int>, h: int)
    requires Llrb.Ordered(n)
    ensures var r := AssociatedTree(n, h);
      && (r.Some? ==> r.value in Llrb.Contents(n) && Llrb.Contents(n)[r.value] == h)
      && (r.None? ==> forall v :: v in Llrb.Contents(n) ==> Llrb.Contents(n)[v] != h)
  {
    if n.Node? {
      AssociatedTreeFinds(n.left, h);
      AssociatedTreeFinds(n.right, h);
      Llrb.ChildEntries(n);
    }
  }

  lemma AssociatedTreeIsAssociated(n: Llrb.Tree<int>, h: int)
    requires Llrb.Valid(n) && Injective(Llrb.Contents(n))
    ensures AssociatedTree(n, h) == IsAssociated(Llrb.Contents(n), h)
  {
    AssociatedTreeFinds(n, h);
  }
}
