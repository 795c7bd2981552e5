/** For every list there is what the passes compute about it: exact liveness, hints that
    tell the next use, orders in which the trees are walked. */
module Feasible {
  import opened Ops
  import opened RegMap
  import opened RegAlloc
  import opened Machine
  import opened Allocation
  import opened AllocSim
  import opened Liveness
  import opened Pipeline
  import Flow
  import Statistics

  // ---- Liveness ----------------------------------------------------------------------------

  function MayRead(op: Op): set<int> {
    op.Uses() + {ArgReg(op.a1), FloatArgReg(op.a1), MkRegEx(FLOAT, CLASS_ARG, op.a1)}
  }

  function AllRead(ops: seq<Op>): set<int> {
    set i, v | 0 <= i < |ops| && v in MayRead(ops[i]) :: v
  }

  /** Nothing is known of the other functions. */
  function Nothing(n: nat): (beyond: seq<set<int>>)
    ensures |beyond| == n && forall i :: 0 <= i < n ==> beyond[i] == {}
  {
    seq(n, i => {})
  }

  lemma LiveIsRead(f: Flow.Fn, i: nat, v: int)
    requires Flow.FnOk(f) && Flow.Live(f, Nothing(|f.ops|), i, v)
    ensures v in AllRead(f.ops)
  {
    hide Flow.FnOk, Flow.Succ, Flow.Kill;
    var path :| Flow.UsePath(f, Nothing(|f.ops|), path, v) && path[0] == i;
    var last := path[|path| - 1];
    assert v in Flow.Gen(f, last);
    assert v in MayRead(f.ops[last]);
  }

  ghost function LiveSet(f: Flow.Fn, i: nat): (r: set<int>)
    requires Flow.FnOk(f)
  {
    set v | v in AllRead(f.ops) && Flow.Live(f, Nothing(|f.ops|), i, v)
  }

  ghost function OutSet(f: Flow.Fn, i: nat): (r: set<int>)
    requires Flow.FnOk(f) && Flow.In(f, i)
  {
    set v | v in AllRead(f.ops) && !Flow.Returns(f.ops[i]) && Flow.FlowsLive(f, Nothing(|f.ops|), i, v)
  }

  ghost function LiveAt(ops: seq<Op>, infos: map<int, seq<ArgInfo>>, i: nat): (set<int>, set<int>)
    requires Flow.ListOk(ops, infos) && i < |ops|
  {
    var lo := Flow.Start(ops, i);
    if lo < 0 || !Flow.In(Flow.FnFrom(ops, infos, lo), i) then ({}, {})
    else (LiveSet(Flow.FnFrom(ops, infos, lo), i), OutSet(Flow.FnFrom(ops, infos, lo), i))
  }

  /** Liveness by paths, for every function of the list. */
  ghost function SetsOf(ops: seq<Op>, infos: map<int, seq<ArgInfo>>): (s: Flow.Sets)
    requires Flow.ListOk(ops, infos)
    ensures |s.into| == |s.out| == |ops|
  {
    Flow.Sets(seq(|ops|, i requires 0 <= i < |ops| => LiveAt(ops, infos, i).0),
              seq(|ops|, i requires 0 <= i < |ops| => LiveAt(ops, infos, i).1))
  }

  function BeyondAll(n: nat, k: nat): (m: map<int, seq<set<int>>>)
    ensures forall lo :: 0 <= lo < k ==> lo in m && m[lo] == Nothing(n)
  {
    if k == 0 then map[] else BeyondAll(n, k - 1)[k - 1 := Nothing(n)]
  }

  lemma SetsAreExact(ops: seq<Op>, infos: map<int, seq<ArgInfo>>, lo: nat)
    requires Flow.ListOk(ops, infos) && Flow.StartsAt(ops, lo)
    ensures Flow.Exact(Flow.FnFrom(ops, infos, lo), Nothing(|ops|), SetsOf(ops, infos))
  {
    hide Flow.FnOk, Flow.Live, Flow.FlowsLive, AllRead;
    var f, s := Flow.FnFrom(ops, infos, lo), SetsOf(ops, infos);
    forall i, v | Flow.In(f, i)
      ensures v in s.into[i] <==> Flow.Live(f, Nothing(|ops|), i, v)
      ensures v in s.out[i] <==> !Flow.Returns(f.ops[i]) && Flow.FlowsLive(f, Nothing(|ops|), i, v)
    {
      Flow.StartIsFirst(ops, lo, i);
      if Flow.Live(f, Nothing(|ops|), i, v) {
        LiveIsRead(f, i, v);
      }
      if Flow.FlowsLive(f, Nothing(|ops|), i, v) {
        FlowIsRead(f, i, v);
      }
    }
  }

  lemma FlowIsRead(f: Flow.Fn, i: nat, v: int)
    requires Flow.FnOk(f) && Flow.In(f, i) && Flow.FlowsLive(f, Nothing(|f.ops|), i, v)
    ensures v in AllRead(f.ops)
  {
    hide Flow.FnOk, Flow.Live, AllRead;
    var t: nat :| Flow.Succ(f, i, t) && Flow.Live(f, Nothing(|f.ops|), t, v);
    LiveIsRead(f, t, v);
  }

  lemma EveryListIsAnalysed(ops: seq<Op>, infos: map<int, seq<ArgInfo>>)
    requires Flow.ListOk(ops, infos)
    ensures Analysed(ops, infos, BeyondAll(|ops|, |ops|), SetsOf(ops, infos))
  {
    hide Flow.FnOk, Flow.Exact, Flow.End, SetsOf;
    forall lo | Flow.StartsAt(ops, lo)
      ensures Flow.Exact(Flow.FnFrom(ops, infos, lo), Nothing(|ops|), SetsOf(ops, infos))
    {
      SetsAreExact(ops, infos, lo);
    }
  }

  // ---- Hints -----------------------------------------------------------------------------------

  function AllMentioned(ops: seq<Op>): set<int> {
    set i, v | 0 <= i < |ops| && v in ops[i].Uses() + ops[i].Defs() :: v
  }

  lemma {:induction false} NextUseIsMentioned(ops: seq<Op>, i: nat, v: int)
    requires i < |ops| && Statistics.NextUse(ops, i, v).Some?
    ensures v in AllMentioned(ops)
    decreases |ops| - i
  {
    if !ops[i].Mentions(v) {
      NextUseIsMentioned(ops, i + 1, v);
    } else {
      assert v in ops[i].Uses() + ops[i].Defs();
    }
  }

  function HintsAt(ops: seq<Op>, i: nat): map<int, Hint>
    requires i < |ops|
  {
    map v | v in AllMentioned(ops) && Statistics.NextUse(ops, i, v).Some? :: Hint(Statistics.NextUse(ops, i, v).value, 0, 0)
  }

  ghost function SiteFor(ops: seq<Op>, s: Flow.Sets, used: nat -> bool, i: nat): Site
    requires i < |ops| == |s.into| == |s.out|
  {
    Site(ops[i], s.into[i], s.out[i], HintsAt(ops, i), Statistics.Pos(ops, i), used(i))
  }

  lemma SiteForTells(ops: seq<Op>, s: Flow.Sets, used: nat -> bool, i: nat)
    requires i < |ops| == |s.into| == |s.out|
    ensures Statistics.SiteTells(ops, i, SiteFor(ops, s, used, i))
  {
    hide AllMentioned;
    forall v | Statistics.NextUse(ops, i, v).Some?
      ensures v in AllMentioned(ops)
    {
      NextUseIsMentioned(ops, i, v);
    }
  }

  ghost function ProgramFor(ops: seq<Op>, infos: map<int, seq<ArgInfo>>, targets: set<nat>, s: Flow.Sets, used: nat -> bool): (pr: Program)
    requires |ops| == |s.into| == |s.out|
    ensures pr.infos == infos && pr.targets == targets && |pr.sites| == |ops|
    ensures forall i :: 0 <= i < |ops| ==> pr.sites[i] == SiteFor(ops, s, used, i)
  {
    Program(seq(|ops|, i requires 0 <= i < |ops| => SiteFor(ops, s, used, i)), infos, targets, i => ([], []))
  }

  // ---- Walks --------------------------------------------------------------------------------------

  ghost function SeqOf(s: set<int>): (r: seq<int>)
    ensures forall v :: v in s ==> v in r
  {
    if exists v :: v in s then
      var v :| v in s;
      [v] + SeqOf(s - {v})
    else []
  }

  /** Walks that visit all the keys there are. */
  ghost function WithCover(p: Pool, pr: Program): (r: Program)
    requires ProgramOk(p, pr)
    ensures r.sites == pr.sites && r.infos == pr.infos && r.targets == pr.targets
  {
    pr.(order := (i: nat) => if i < |pr.sites| && Jumps(pr.Op(i)) then CoverAt(p, pr, i) else ([], []))
  }

  ghost function CoverAt(p: Pool, pr: Program, i: nat): (seq<int>, seq<int>)
    requires ProgramOk(p, pr) && i < |pr.sites| && Jumps(pr.Op(i))
  {
    (SeqOf(AssignAt(p, pr, i).rm.Keys), SeqOf(AssignAt(p, pr, pr.Op(i).jmp.value).rm.Keys))
  }

  lemma CoverCovers(p: Pool, pr: Program)
    requires ProgramOk(p, pr)
    ensures ProgramOk(p, WithCover(p, pr)) && WalksCover(p, WithCover(p, pr))
  {
    hide SitesOk, NeighboursOk, TargetsOk, AssignAt;
    var r := WithCover(p, pr);
    assert r == pr.(order := r.order);
    OrderKeepsProgram(p, pr, r.order);
    forall i | 0 <= i < |r.sites| && Jumps(r.Op(i))
      ensures var t := r.Op(i).jmp.value;
        && (forall v :: v in AssignAt(p, r, i).rm ==> v in r.order(i).0)
        && (forall v :: v in AssignAt(p, r, t).rm ==> v in r.order(i).1)
    {
      assert Lands(pr, pr.Op(i).jmp.value);
      OrderDoesNotMatter(p, pr, r.order, i);
      OrderDoesNotMatter(p, pr, r.order, pr.Op(i).jmp.value);
    }
  }

  // ---- The allocator ------------------------------------------------------------------------------

  /** What the allocator asks of the machine for a list; no branch tests bits. */
  ghost predicate Serves<W(!new), M(!new)>(env: Env<W, M>, ops: seq<Op>, infos: map<int, seq<ArgInfo>>) {
    && (forall i :: 0 <= i < |ops| && IsCondBranch(ops[i].code) ==> Inverts(env, ops[i]))
    && (forall i :: 0 <= i < |ops| ==> ops[i].code != BMS && ops[i].code != BMC)
    && (forall i, w: W :: 0 <= i < |ops| && WholeArg(ops[i], DeclaredAt(ops, infos, i)) ==> env.extend(ops[i].a1, w) == w)
  }

  predicate WholeArg(op: Op, info: seq<ArgInfo>) {
    op.code == GETARG && 0 <= op.a1 < |info| && !info[op.a1].isFloat && info[op.a1].size == REG_SIZE
  }

  /** The allocator, with these lists, sets and marks. */
  ghost function Assigned<W, M>(env: Env<W, M>, p: Pool, pr: Program, reach: set<nat>): (x: Setup<W, M>)
    requires ProgramOk(p, pr)
    ensures x.env == env && x.p == p && x.pr.sites == pr.sites && x.pr.infos == pr.infos && x.pr.targets == pr.targets && x.reach == reach
  {
    CoverCovers(p, pr);
    Setup(env, p, WithCover(p, pr), Allocate(p, WithCover(p, pr)), [], [], reach)
  }

  lemma AssignedRan<W(!new), M(!new)>(env: Env<W, M>, p: Pool, pr: Program, reach: set<nat>)
    requires ProgramOk(p, pr) && Serves(env, pr.Ops(), pr.infos)
    ensures AllocatorRan(Assigned(env, p, pr, reach))
  {
    hide SitesOk, NeighboursOk, TargetsOk, JumpsOk, AssignAt, Allocate, PoolOk, DeclaredAt, WalksCover;
    CoverCovers(p, pr);
    var x := Assigned(env, p, pr, reach);
    assert x.pr.Ops() == pr.Ops();
  }

  lemma ForIsGiven<W(!new), M(!new)>(x: Setup<W, M>, ops: seq<Op>, infos: map<int, seq<ArgInfo>>, targets: set<nat>, s: Flow.Sets, used: nat -> bool)
    requires |ops| == |s.into| == |s.out| && x.pr.sites == ProgramFor(ops, infos, targets, s, used).sites
    ensures Given(x, ops, s) && forall i :: 0 <= i < |ops| ==> x.pr.sites[i].inUse == used(i)
  {
    hide Statistics.SiteTells, HintsAt;
    assert x.pr.Ops() == ops;
    forall i | 0 <= i < |ops|
      ensures Statistics.SiteTells(ops, i, x.pr.sites[i])
    {
      SiteForTells(ops, s, used, i);
    }
  }
}
