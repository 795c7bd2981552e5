/** `jit_collect_statistics`: one backward pass that tells every operation when
    each register is next mentioned.  Hint cells are shared between operations, and
    a CALL counts up in shared cells, so the pass works on objects. */
module Statistics {
  import opened Ops
  import opened RegMap
  import Llrb

  /** `struct jit_allocator_hint`. */
  class HintCell {
    const lastPos: nat
    const eax: nat
    var calleeSaved: nat

    constructor (lastPos: nat, calleeSaved: nat, eax: nat)
      ensures this.lastPos == lastPos && this.calleeSaved == calleeSaved && this.eax == eax
    {
      this.lastPos, this.calleeSaved, this.eax := lastPos, calleeSaved, eax;
    }

    function Value(): Hint
      reads this
    {
      Hint(lastPos, calleeSaved, eax)
    }
  }

  /** What the pass reads of an operation, and what it leaves there. */
  class Scanned {
    const op: Op
    const liveIn: set<int>
    const liveOut: set<int>
    const inUse: bool
    var pos: nat
    var hints: Llrb.Tree<HintCell>

    constructor (op: Op, liveIn: set<int>, liveOut: set<int>, inUse: bool)
      ensures this.op == op && this.liveIn == liveIn && this.liveOut == liveOut && this.inUse == inUse
    {
      this.op, this.liveIn, this.liveOut, this.inUse := op, liveIn, liveOut, inUse;
      pos, hints := 0, Llrb.Leaf;
    }

    ghost function Hints(): map<int, HintCell>
      reads this
    {
      Llrb.Contents(hints)
    }

    /** The operation as the allocator sees it. */
    ghost function ToSite(): Site
      reads this, Hints().Values
    {
      Site(op, liveIn, liveOut, map v | v in Hints() :: Hints()[v].Value(), pos, inUse)
    }
  }

  // ---- What the pass computes -------------------------------------------------------

  predicate EndsFunction(ops: seq<Op>, i: nat)
    requires i < |ops|
  {
    i + 1 == |ops| || ops[i + 1].code == PROLOG
  }

  /** Operations left until the function ends. */
  function Pos(ops: seq<Op>, i: nat): nat
    requires i < |ops|
    decreases |ops| - i
  {
    if EndsFunction(ops, i) then 0 else Pos(ops, i + 1) + 1
  }

  /** The position of the next operation, from i on, that mentions v. */
  function NextUse(ops: seq<Op>, i: nat, v: int): Option<nat>
    requires i < |ops|
    decreases |ops| - i
  {
    if ops[i].Mentions(v) then Some(Pos(ops, i))
    else if EndsFunction(ops, i) then None
    else NextUse(ops, i + 1, v)
  }

  lemma {:induction false} NextUseIsLater(ops: seq<Op>, i: nat, v: int)
    requires i < |ops| && NextUse(ops, i, v).Some?
    ensures NextUse(ops, i, v).value <= Pos(ops, i)
    ensures NextUse(ops, i, v).value == Pos(ops, i) <==> ops[i].Mentions(v)
    decreases |ops| - i
  {
    if !ops[i].Mentions(v) {
      NextUseIsLater(ops, i + 1, v);
    }
  }

  /** The function that operation i belongs to ends with operation e. */
  predicate LastOf(ops: seq<Op>, i: nat, e: nat) {
    i <= e < |ops| && EndsFunction(ops, e) && forall k :: i <= k < e ==> !EndsFunction(ops, k)
  }

  /** A position is the distance from there. */
  lemma {:induction false} PosIsDistance(ops: seq<Op>, i: nat, e: nat)
    requires LastOf(ops, i, e)
    ensures Pos(ops, i) == e - i
    decreases e - i
  {
    if i < e {
      PosIsDistance(ops, i + 1, e);
    }
  }

  /** The next use is at the nearest operation, up to the end of the function, that
      mentions the register; without one there is none. */
  lemma {:induction false} NextUseIsNearest(ops: seq<Op>, i: nat, e: nat, v: int)
    requires LastOf(ops, i, e)
    ensures NextUse(ops, i, v).None? <==> forall k :: i <= k <= e ==> !ops[k].Mentions(v)
    ensures forall k :: i <= k <= e && ops[k].Mentions(v) && (forall j :: i <= j < k ==> !ops[j].Mentions(v)) ==>
      NextUse(ops, i, v) == Some(e - k)
    decreases e - i
  {
    hide Op.Mentions;
    PosIsDistance(ops, i, e);
    if i < e {
      NextUseIsNearest(ops, i + 1, e, v);
    }
  }

  /** Operation i, its position and its hints as the pass leaves them. */
  ghost predicate SiteTells(ops: seq<Op>, i: nat, s: Site)
    requires i < |ops|
  {
    && s.op == ops[i] && s.pos == Pos(ops, i)
    && (forall v :: v in s.hints ==> s.hints[v].calleeSaved >= 0 && s.hints[v].eax >= 0)
    && (forall v :: if v in s.hints then NextUse(ops, i, v) == Some(s.hints[v].lastPos) else NextUse(ops, i, v) == None)
  }

  /** Hints that tell the next use are exact in the sense the allocator needs. */
  lemma NextUsesAreExact(ops: seq<Op>, i: nat, s: Site)
    requires i < |ops| && SiteTells(ops, i, s)
    ensures HintsExact(s)
  {
    forall v | v in s.hints
      ensures s.hints[v].lastPos <= s.pos && (s.hints[v].lastPos == s.pos <==> s.op.Mentions(v))
    {
      NextUseIsLater(ops, i, v);
    }
  }

  // ---- What the tallies count ------------------------------------------------------------

  /** Returns, from operation i to the end of its function, that mention v. */
  function RetsFrom(ops: seq<Op>, i: nat, v: int): nat
    requires i < |ops|
    decreases |ops| - i
  {
    (if ops[i].Mentions(v) && ops[i].code in {RET, RETVAL} then 1 else 0)
    + if EndsFunction(ops, i) then 0 else RetsFrom(ops, i + 1, v)
  }

  /** Calls, from operation i to the end of its function, after which v is live, and
      mentioned again. */
  function CallsFrom(ops: seq<Op>, outs: seq<set<int>>, i: nat, v: int): nat
    requires i < |ops| == |outs|
    decreases |ops| - i
  {
    (if ops[i].code == CALL && v in outs[i] && NextUse(ops, i, v).Some? then 1 else 0)
    + if EndsFunction(ops, i) then 0 else CallsFrom(ops, outs, i + 1, v)
  }

  /** From where on calls count for v at operation k: behind its last mention, or from
      the beginning of the function, or from where the pass has come to. */
  function Since(ops: seq<Op>, i: nat, k: nat, v: int): (j: nat)
    requires i <= k < |ops|
    ensures i <= j <= k
    decreases k
  {
    if k == i || EndsFunction(ops, k - 1) || ops[k - 1].Mentions(v) then k else Since(ops, i, k - 1, v)
  }

  lemma {:induction false} SinceOn(ops: seq<Op>, i: nat, k: nat, v: int)
    requires 0 < i <= k < |ops|
    ensures Since(ops, i - 1, k, v) ==
      if Since(ops, i, k, v) > i || EndsFunction(ops, i - 1) || ops[i - 1].Mentions(v) then Since(ops, i, k, v) else i - 1
    decreases k
  {
    hide Op.Mentions, EndsFunction;
    if k > i {
      SinceOn(ops, i, k - 1, v);
    }
  }

  lemma {:induction false} NoUseNoTally(ops: seq<Op>, outs: seq<set<int>>, i: nat, v: int)
    requires i < |ops| == |outs| && NextUse(ops, i, v).None?
    ensures RetsFrom(ops, i, v) == 0 && CallsFrom(ops, outs, i, v) == 0
    decreases |ops| - i
  {
    if !EndsFunction(ops, i) {
      NoUseNoTally(ops, outs, i + 1, v);
    }
  }

  // ---- The pass -----------------------------------------------------------------------

  /** The distinct registers among the operands. */
  method FoundRegs(op: Op) returns (regs: seq<int>)
    ensures forall v :: v in regs <==> op.Mentions(v)
    ensures forall j, k :: 0 <= j < k < |regs| ==> regs[j] != regs[k]
  {
    regs := [];
    for i := 0 to 3
      invariant forall v :: v in regs <==> exists j :: 0 <= j < i && (op.T(j) == REG || op.T(j) == TREG) && op.A(j) == v
      invariant forall j, k :: 0 <= j < k < |regs| ==> regs[j] != regs[k]
    {
      if (op.T(i) == REG || op.T(i) == TREG) && op.A(i) !in regs {
        regs := regs + [op.A(i)];
      }
    }
  }

  /** The hints of operation i tell its next uses. */
  ghost predicate Tells(ops: seq<Op>, i: nat, hints: map<int, HintCell>)
    requires i < |ops|
  {
    forall v :: if v in hints then NextUse(ops, i, v) == Some(hints[v].lastPos) else NextUse(ops, i, v) == None
  }

  /** No two registers of one operation share a cell. */
  ghost predicate OwnCells(hints: map<int, HintCell>) {
    forall u, v :: u in hints && v in hints && hints[u] == hints[v] ==> u == v
  }

  ghost predicate CellsIn(hints: map<int, HintCell>, cells: set<HintCell>) {
    forall v :: v in hints ==> hints[v] in cells
  }

  /** The tally after a call that `v` may live across. */
  function Counted(calleeSaved: nat, v: int, liveOut: set<int>): nat {
    calleeSaved + if v in liveOut then 1 else 0
  }

  /** `mark_calleesaved_regs`: every register live after a call is counted once. */
  method MarkCalleeSaved(hint: Llrb.Tree<HintCell>, liveOut: set<int>, ghost cells: set<HintCell>)
    requires Llrb.Ordered(hint) && OwnCells(Llrb.Contents(hint)) && CellsIn(Llrb.Contents(hint), cells)
    modifies cells
    ensures var m := Llrb.Contents(hint);
      forall v :: v in m ==> m[v].calleeSaved == Counted(old(m[v].calleeSaved), v, liveOut)
    ensures var m := Llrb.Contents(hint); forall c :: c in cells && (forall v :: v in m ==> m[v] != c) ==> unchanged(c)
    decreases hint
  {
    if hint.Node? {
      ghost var l, r := Llrb.Contents(hint.left), Llrb.Contents(hint.right);
      Llrb.ChildEntries(hint);
      if hint.key in liveOut {
        hint.value.calleeSaved := hint.value.calleeSaved + 1;
      }
      MarkCalleeSaved(hint.left, liveOut, cells);
      MarkCalleeSaved(hint.right, liveOut, cells);
    }
  }

  function RetWeight(op: Op): nat {
    if op.code == RETVAL || op.code == RET then 1 else 0
  }

  /** The cell of a mentioned register carries on the tallies of the one before. */
  ghost predicate Renewed(op: Op, last: map<int, HintCell>, v: int, c: HintCell)
    reads c, last.Values
  {
    if v in last then c.calleeSaved == last[v].calleeSaved && c.eax == last[v].eax + RetWeight(op)
    else c.calleeSaved == 0 && c.eax == RetWeight(op)
  }

  /** A fresh cell for `reg`, with the tallies of the one it replaces. */
  method NewHint(op: Op, hints: Llrb.Tree<HintCell>, reg: int, pos: nat, ghost cells: set<HintCell>) returns (hint: HintCell)
    requires Llrb.Ordered(hints) && CellsIn(Llrb.Contents(hints), cells)
    ensures fresh(hint) && hint.lastPos == pos
    ensures var m := Llrb.Contents(hints);
      && hint.calleeSaved == (if reg in m then old(m[reg].calleeSaved) else 0)
      && hint.eax == (if reg in m then m[reg].eax else 0) + RetWeight(op)
  {
    var calleeSaved, eax := 0, 0;
    var found := Llrb.Search(hints, reg);
    if found.Node? {
      calleeSaved, eax := found.value.calleeSaved, found.value.eax;
    }
    if op.code == RETVAL || op.code == RET {
      eax := eax + 1;
    }
    hint := new HintCell(pos, calleeSaved, eax);
  }

  /** That cell goes into the tree. */
  method AddHint(op: Op, hints: Llrb.Tree<HintCell>, reg: int, pos: nat, ghost cells: set<HintCell>)
    returns (r: Llrb.Tree<HintCell>, hint: HintCell)
    requires Llrb.Valid(hints) && CellsIn(Llrb.Contents(hints), cells)
    ensures fresh(hint) && hint.lastPos == pos
    ensures Llrb.Valid(r) && Llrb.Contents(r) == Llrb.Contents(hints)[reg := hint]
    ensures var m := Llrb.Contents(hints);
      && hint.calleeSaved == (if reg in m then old(m[reg].calleeSaved) else 0)
      && hint.eax == (if reg in m then m[reg].eax else 0) + RetWeight(op)
  {
    hint := NewHint(op, hints, reg, pos, cells);
    Llrb.InsertIsUpdate(hints, reg, hint);
    r := Llrb.Insert(hints, reg, hint);
  }

  /** The new hints of one operation, from those of the one after it. */
  method HintsFor(op: Op, last: Llrb.Tree<HintCell>, pos: nat, ghost cells: set<HintCell>)
    returns (hints: Llrb.Tree<HintCell>, ghost more: set<HintCell>)
    requires Llrb.Valid(last) && CellsIn(Llrb.Contents(last), cells)
    ensures Llrb.Valid(hints)
    ensures var m, l := Llrb.Contents(hints), Llrb.Contents(last);
      && (forall v :: v in m <==> v in l || op.Mentions(v))
      && (forall v :: v in m ==> if op.Mentions(v) then m[v].lastPos == pos else m[v] == l[v])
      && (OwnCells(l) ==> OwnCells(m))
      && CellsIn(m, more) && cells <= more && fresh(more - cells)
      && (forall v :: v in m && op.Mentions(v) ==> Renewed(op, l, v, m[v]) && m[v] !in cells)
  {
    hide Llrb.Valid, Llrb.Contents, Llrb.Insert, Llrb.Clone, Llrb.Ordered, Op.Uses, Op.Defs, Op.Mentions, RetWeight;
    Llrb.CloneIsCopy(last);
    hints, more := Llrb.Clone(last), cells;
    var regs := FoundRegs(op);
    for i := 0 to |regs|
      invariant Llrb.Valid(hints)
      invariant var m, l := Llrb.Contents(hints), Llrb.Contents(last);
        && (forall v :: v in m <==> v in l || v in regs[..i])
        && (forall v :: v in m ==> if v in regs[..i] then m[v].lastPos == pos else m[v] == l[v])
        && (OwnCells(l) ==> OwnCells(m))
        && CellsIn(m, more) && cells <= more && fresh(more - cells)
        && (forall v :: v in m && v in regs[..i] ==> Renewed(op, l, v, m[v]) && m[v] !in cells)
    {
      var hint;
      hints, hint := AddHint(op, hints, regs[i], pos, more);
      more := more + {hint};
    }
    assert regs[..|regs|] == regs;
  }

  ghost predicate Done(ops: seq<Op>, i: nat, scanned: Scanned)
    requires i < |ops|
    reads scanned
  {
    scanned.pos == Pos(ops, i) && Llrb.Valid(scanned.hints) && Tells(ops, i, scanned.Hints()) && OwnCells(scanned.Hints())
  }

  ghost function OpsOf(list: seq<Scanned>): (ops: seq<Op>)
    ensures |ops| == |list| && forall i :: 0 <= i < |list| ==> ops[i] == list[i].op
  {
    seq(|list|, i requires 0 <= i < |list| => list[i].op)
  }

  lemma DoneIsExact(ops: seq<Op>, i: nat, scanned: Scanned)
    requires i < |ops| && scanned.op == ops[i] && Done(ops, i, scanned)
    ensures SiteTells(ops, i, scanned.ToSite()) && HintsExact(scanned.ToSite())
  {
    NextUsesAreExact(ops, i, scanned.ToSite());
  }

  lemma HintsTell(ops: seq<Op>, i: nat, last: map<int, HintCell>, hints: map<int, HintCell>)
    requires i < |ops| && if EndsFunction(ops, i) then last == map[] else Tells(ops, i + 1, last)
    requires forall v :: v in hints <==> v in last || ops[i].Mentions(v)
    requires forall v :: v in hints ==> if ops[i].Mentions(v) then hints[v].lastPos == Pos(ops, i) else hints[v] == last[v]
    ensures Tells(ops, i, hints)
  {
  }

  lemma ValidIsOrdered(t: Llrb.Tree<HintCell>)
    requires Llrb.Valid(t)
    ensures Llrb.Ordered(t)
  {
  }

  /** The hints of one operation, its call counted. */
  method NextHints(op: Op, out: set<int>, last: Llrb.Tree<HintCell>, pos: nat, ghost cells: set<HintCell>)
    returns (hints: Llrb.Tree<HintCell>, ghost more: set<HintCell>)
    requires Llrb.Valid(last) && OwnCells(Llrb.Contents(last)) && CellsIn(Llrb.Contents(last), cells)
    modifies cells
    ensures Llrb.Valid(hints) && cells <= more && fresh(more - cells)
    ensures var m, l := Llrb.Contents(hints), Llrb.Contents(last);
      && OwnCells(m) && CellsIn(m, more) && CellsStep(op, out, l, m, old(TallyOf(cells)), TallyOf(more))
      && (forall v :: v in m <==> v in l || op.Mentions(v))
      && (forall v :: v in m ==> if op.Mentions(v) then m[v].lastPos == pos else m[v] == l[v])
  {
    hide CellsStep, RetWeight, Op.Mentions, OwnCells, Llrb.Valid, Llrb.Ordered, Llrb.Contents;
    ghost var was := TallyOf(cells);
    hints, more := HintsFor(op, last, pos, cells);
    ghost var mid := TallyOf(more);
    NotCounted(op, Llrb.Contents(last), Llrb.Contents(hints), was, mid);
    if op.code == CALL {
      ValidIsOrdered(hints);
      MarkCalleeSaved(hints, out, more);
    }
    CallCounted(op, out, Llrb.Contents(last), Llrb.Contents(hints), was, mid, TallyOf(more));
  }

  /** One operation of the pass. */
  method ScanOne(ghost ops: seq<Op>, ghost i: nat, scanned: Scanned, last: Llrb.Tree<HintCell>, pos: nat, ghost cells: set<HintCell>)
    returns (ghost more: set<HintCell>)
    requires i < |ops| && scanned.op == ops[i] && pos == Pos(ops, i)
    requires Llrb.Valid(last) && OwnCells(Llrb.Contents(last)) && CellsIn(Llrb.Contents(last), cells)
    requires if EndsFunction(ops, i) then last.Leaf? else Tells(ops, i + 1, Llrb.Contents(last))
    modifies scanned, cells
    ensures Done(ops, i, scanned) && CellsIn(scanned.Hints(), more) && cells <= more && fresh(more - cells)
    ensures CellsStep(scanned.op, scanned.liveOut, Llrb.Contents(last), scanned.Hints(), old(TallyOf(cells)), TallyOf(more))
  {
    hide Tells, CellsStep, Pos, Llrb.Valid, OwnCells, CellsIn, Op.Mentions;
    var hints;
    hints, more := NextHints(scanned.op, scanned.liveOut, last, pos, cells);
    HintsTell(ops, i, Llrb.Contents(last), Llrb.Contents(hints));
    scanned.pos, scanned.hints := pos, hints;
  }

  lemma NotCounted(op: Op, last: map<int, HintCell>, hints: map<int, HintCell>, tally: map<HintCell, nat>, mid: map<HintCell, nat>)
    requires (forall v :: v in hints <==> v in last || op.Mentions(v)) && CellsIn(last, tally.Keys) && CellsIn(hints, mid.Keys)
    requires forall v :: v in hints && !op.Mentions(v) ==> hints[v] == last[v]
    requires forall v :: v in hints && op.Mentions(v) ==>
      && hints[v] !in tally
      && hints[v].eax == (if v in last then last[v].eax else 0) + RetWeight(op)
      && mid[hints[v]] == if v in last then tally[last[v]] else 0
    requires forall c :: c in tally ==> c in mid && mid[c] == tally[c]
    ensures CellsStep(op, {}, last, hints, tally, mid)
  {
    hide Op.Mentions;
  }

  lemma CallCounted(op: Op, out: set<int>, last: map<int, HintCell>, hints: map<int, HintCell>, tally: map<HintCell, nat>,
                    mid: map<HintCell, nat>, tally': map<HintCell, nat>)
    requires CellsStep(op, {}, last, hints, tally, mid) && mid.Keys == tally'.Keys
    requires if op.code == CALL
             then (forall v :: v in hints && hints[v] in mid ==> tally'[hints[v]] == Counted(mid[hints[v]], v, out))
                  && (forall c :: c in mid && (forall v :: v in hints ==> hints[v] != c) ==> tally'[c] == mid[c])
             else tally' == mid
    ensures CellsStep(op, out, last, hints, tally, tally')
  {
    hide Op.Mentions;
  }

  // ---- The tallies, cells being shared ------------------------------------------------------

  /** The cells of operation k have counted what there is from i on. */
  ghost predicate Counts(ops: seq<Op>, outs: seq<set<int>>, i: nat, k: nat, hints: map<int, HintCell>, tally: map<HintCell, nat>)
    requires i <= k < |ops| == |outs|
  {
    forall v :: v in hints ==>
      && hints[v] in tally && tally[hints[v]] == CallsFrom(ops, outs, Since(ops, i, k, v), v) && hints[v].eax == RetsFrom(ops, k, v)
  }

  /** Operation k has its cells in common with operation i as long as they still count. */
  ghost predicate Shares(ops: seq<Op>, i: nat, k: nat, hints: map<int, HintCell>, first: map<int, HintCell>)
    requires i <= k < |ops|
  {
    forall v :: v in hints ==>
      if Since(ops, i, k, v) == i then v in first && first[v] == hints[v] else forall u :: u in first ==> first[u] != hints[v]
  }

  /** What one operation does to cells: those of the registers it mentions are new, and a
      CALL counts in all that it has. */
  ghost predicate CellsStep(op: Op, out: set<int>, last: map<int, HintCell>, hints: map<int, HintCell>,
                            tally: map<HintCell, nat>, tally': map<HintCell, nat>)
  {
    && (forall v :: v in last ==> last[v] in tally)
    && (forall v :: v in hints ==> if op.Mentions(v) then hints[v] !in tally else v in last && hints[v] == last[v])
    && (forall v :: v in last && !op.Mentions(v) ==> v in hints)
    && (forall v :: v in hints ==>
          && hints[v] in tally'
          && hints[v].eax == (if v in last then last[v].eax else 0) + (if op.Mentions(v) then RetWeight(op) else 0)
          && tally'[hints[v]] == (if v in last then tally[last[v]] else 0) + if op.code == CALL && v in out then 1 else 0)
    && (forall c :: c in tally && (forall v :: v in hints ==> hints[v] != c) ==> c in tally' && tally'[c] == tally[c])
  }

  /** Cells of later operations go on counting if they are shared, and stay if not. */
  lemma LaterCounts(ops: seq<Op>, outs: seq<set<int>>, i: nat, k: nat, later: map<int, HintCell>, first: map<int, HintCell>,
                    hints: map<int, HintCell>, tally: map<HintCell, nat>, tally': map<HintCell, nat>)
    requires i + 1 <= k < |ops| == |outs| && OwnCells(first)
    requires Counts(ops, outs, i + 1, k, later, tally) && Shares(ops, i + 1, k, later, first)
    requires CellsStep(ops[i], outs[i], if EndsFunction(ops, i) then map[] else first, hints, tally, tally')
    requires Tells(ops, i, hints)
    ensures Counts(ops, outs, i, k, later, tally') && Shares(ops, i, k, later, hints)
  {
    hide EndsFunction, Op.Mentions, RetsFrom;
    var last := if EndsFunction(ops, i) then map[] else first;
    forall v | v in later
      ensures later[v] in tally' && tally'[later[v]] == CallsFrom(ops, outs, Since(ops, i, k, v), v)
      ensures if Since(ops, i, k, v) == i then v in hints && hints[v] == later[v] else forall u :: u in hints ==> hints[u] != later[v]
    {
      SinceOn(ops, i + 1, k, v);
      if Since(ops, i, k, v) == i {
        assert NextUse(ops, i, v).Some?;
      }
    }
  }

  /** And those of the operation itself count from it on. */
  lemma OwnCounts(ops: seq<Op>, outs: seq<set<int>>, i: nat, first: map<int, HintCell>, hints: map<int, HintCell>,
                  tally: map<HintCell, nat>, tally': map<HintCell, nat>)
    requires i < |ops| == |outs| && Tells(ops, i, hints)
    requires !EndsFunction(ops, i) ==> Counts(ops, outs, i + 1, i + 1, first, tally) && Tells(ops, i + 1, first)
    requires CellsStep(ops[i], outs[i], if EndsFunction(ops, i) then map[] else first, hints, tally, tally')
    ensures Counts(ops, outs, i, i, hints, tally') && Shares(ops, i, i, hints, hints)
  {
    hide Op.Mentions;
    forall v | v in hints
      ensures tally'[hints[v]] == CallsFrom(ops, outs, i, v) && hints[v].eax == RetsFrom(ops, i, v)
    {
      if !EndsFunction(ops, i) && v !in first {
        NoUseNoTally(ops, outs, i + 1, v);
      }
      assert NextUse(ops, i, v).Some?;
    }
  }

  ghost function TallyOf(cells: set<HintCell>): (tally: map<HintCell, nat>)
    reads cells
    ensures tally.Keys == cells && forall c :: c in cells ==> tally[c] == c.calleeSaved
  {
    map c | c in cells :: c.calleeSaved
  }

  ghost function OutsOf(list: seq<Scanned>): (outs: seq<set<int>>)
    ensures |outs| == |list| && forall i :: 0 <= i < |list| ==> outs[i] == list[i].liveOut
  {
    seq(|list|, i requires 0 <= i < |list| => list[i].liveOut)
  }

  /** The tallies of operation k: returns from it on that mention the register, and calls
      it lives across from behind its last mention on. */
  ghost predicate Tallied(ops: seq<Op>, outs: seq<set<int>>, k: nat, s: Site)
    requires k < |ops| == |outs|
  {
    forall v :: v in s.hints ==>
      s.hints[v].eax == RetsFrom(ops, k, v) && s.hints[v].calleeSaved == CallsFrom(ops, outs, Since(ops, 0, k, v), v)
  }

  lemma CountsAreTold(ops: seq<Op>, outs: seq<set<int>>, k: nat, scanned: Scanned, tally: map<HintCell, nat>)
    requires k < |ops| == |outs| && Counts(ops, outs, 0, k, scanned.Hints(), tally)
    requires forall c :: c in tally ==> tally[c] == c.calleeSaved
    ensures Tallied(ops, outs, k, scanned.ToSite())
  {
  }

  lemma NoCells()
    ensures var none: Llrb.Tree<HintCell> := Llrb.Leaf;
      Llrb.Valid(none) && Llrb.Contents(none) == map[] && OwnCells(map[])
  {
  }

  /** The pass has come to operation i. */
  ghost predicate CameTo(list: seq<Scanned>, i: nat, last: Llrb.Tree<HintCell>, opsFromReturn: nat, cells: set<HintCell>)
    requires i <= |list|
    reads list
  {
    var ops := OpsOf(list);
    && Llrb.Valid(last) && OwnCells(Llrb.Contents(last)) && CellsIn(Llrb.Contents(last), cells)
    && (forall k :: i <= k < |list| ==> Done(ops, k, list[k]))
    && if i == |list| || ops[i].code == PROLOG then last.Leaf? && opsFromReturn == 0
       else opsFromReturn == Pos(ops, i) + 1 && Tells(ops, i, Llrb.Contents(last)) && Llrb.Contents(last) == list[i].Hints()
  }

  /** All tallies so far are right. */
  ghost predicate Tallying(list: seq<Scanned>, i: nat, cells: set<HintCell>)
    requires i <= |list|
    reads list, cells
  {
    forall k :: i <= k < |list| ==>
      && Counts(OpsOf(list), OutsOf(list), i, k, list[k].Hints(), TallyOf(cells))
      && Shares(OpsOf(list), i, k, list[k].Hints(), list[i].Hints())
  }

  /** From one state of the tallies to the next. */
  lemma TalliesStep(ops: seq<Op>, outs: seq<set<int>>, i: nat, hints: seq<map<int, HintCell>>, first: map<int, HintCell>,
                    tally: map<HintCell, nat>, tally': map<HintCell, nat>)
    requires i < |ops| == |outs| == |hints| && Tells(ops, i, first)
    requires forall k :: i < k < |ops| ==> Counts(ops, outs, i + 1, k, hints[k], tally) && Shares(ops, i + 1, k, hints[k], hints[i + 1])
    requires i + 1 < |ops| ==> OwnCells(hints[i + 1]) && Tells(ops, i + 1, hints[i + 1])
    requires CellsStep(ops[i], outs[i], if EndsFunction(ops, i) then map[] else hints[i + 1], first, tally, tally')
    ensures Counts(ops, outs, i, i, first, tally') && Shares(ops, i, i, first, first)
    ensures forall k :: i < k < |ops| ==> Counts(ops, outs, i, k, hints[k], tally') && Shares(ops, i, k, hints[k], first)
  {
    hide Counts, Shares, CellsStep, Tells, OwnCells;
    var before := if i + 1 < |ops| then hints[i + 1] else map[];
    OwnCounts(ops, outs, i, before, first, tally, tally');
    forall k | i < k < |ops|
      ensures Counts(ops, outs, i, k, hints[k], tally') && Shares(ops, i, k, hints[k], first)
    {
      LaterCounts(ops, outs, i, k, hints[k], before, first, tally, tally');
    }
  }

  ghost function AllHints(list: seq<Scanned>): (hints: seq<map<int, HintCell>>)
    reads list
    ensures |hints| == |list| && forall k :: 0 <= k < |list| ==> hints[k] == list[k].Hints()
  {
    seq(|list|, k requires 0 <= k < |list| reads list => list[k].Hints())
  }

  /** One operation more. */
  method ScanNext(list: seq<Scanned>, i: nat, last: Llrb.Tree<HintCell>, pos: nat, ghost cells: set<HintCell>)
    returns (last': Llrb.Tree<HintCell>, pos': nat, ghost more: set<HintCell>)
    requires i < |list| && forall i, j :: 0 <= i < j < |list| ==> list[i] != list[j]
    requires CameTo(list, i + 1, last, pos, cells) && Tallying(list, i + 1, cells)
    modifies list[i], cells
    ensures CameTo(list, i, last', pos', more) && Tallying(list, i, more) && fresh(more - cells)
  {
    hide CameTo, Tallying, Tells, Llrb.Valid, Llrb.Contents, OwnCells, CellsIn, Counts, Shares, CellsStep, Done, Pos, TallyOf, OpsOf, OutsOf, AllHints;
    ghost var ops, outs, hints, tally := OpsOf(list), OutsOf(list), AllHints(list), TallyOf(cells);
    BeforeNext(list, i, last, pos, cells);
    more := ScanOne(ops, i, list[i], last, pos, cells);
    assert forall k :: i < k < |list| ==> list[k].Hints() == hints[k] && Done(ops, k, list[k]);
    AfterScan(ops, i, list[i]);
    TalliesStep(ops, outs, i, hints, list[i].Hints(), tally, TallyOf(more));
    if list[i].op.code == PROLOG {
      last', pos' := Llrb.Leaf, 0;
    } else {
      last', pos' := list[i].hints, pos + 1;
    }
    AfterNext(list, i, last', pos', more);
  }

  lemma BeforeNext(list: seq<Scanned>, i: nat, last: Llrb.Tree<HintCell>, pos: nat, cells: set<HintCell>)
    requires i < |list| && CameTo(list, i + 1, last, pos, cells) && Tallying(list, i + 1, cells)
    ensures var ops, outs, hints := OpsOf(list), OutsOf(list), AllHints(list);
      && pos == Pos(ops, i) && Llrb.Valid(last) && OwnCells(Llrb.Contents(last)) && CellsIn(Llrb.Contents(last), cells)
      && (if EndsFunction(ops, i) then last.Leaf? && Llrb.Contents(last) == map[]
          else Tells(ops, i + 1, Llrb.Contents(last)) && Llrb.Contents(last) == hints[i + 1])
      && (i + 1 < |ops| ==> OwnCells(hints[i + 1]) && Tells(ops, i + 1, hints[i + 1]))
      && (forall k :: i < k < |list| ==>
            && Done(ops, k, list[k])
            && Counts(ops, outs, i + 1, k, hints[k], TallyOf(cells)) && Shares(ops, i + 1, k, hints[k], hints[i + 1]))
  {
    hide Tells, Llrb.Valid, OwnCells, CellsIn, Counts, Shares;
    if i + 1 < |list| {
      assert Done(OpsOf(list), i + 1, list[i + 1]);
    }
  }

  lemma AfterScan(ops: seq<Op>, i: nat, scanned: Scanned)
    requires i < |ops| && Done(ops, i, scanned)
    ensures Tells(ops, i, scanned.Hints()) && Llrb.Valid(scanned.hints) && OwnCells(scanned.Hints()) && scanned.pos == Pos(ops, i)
  {
  }

  lemma AfterNext(list: seq<Scanned>, i: nat, last: Llrb.Tree<HintCell>, pos: nat, cells: set<HintCell>)
    requires i < |list| && forall k :: i <= k < |list| ==> Done(OpsOf(list), k, list[k])
    requires CellsIn(list[i].Hints(), cells)
    requires if list[i].op.code == PROLOG then last.Leaf? && pos == 0 else last == list[i].hints && pos == Pos(OpsOf(list), i) + 1
    requires forall k :: i <= k < |list| ==>
      && Counts(OpsOf(list), OutsOf(list), i, k, list[k].Hints(), TallyOf(cells))
      && Shares(OpsOf(list), i, k, list[k].Hints(), list[i].Hints())
    ensures CameTo(list, i, last, pos, cells) && Tallying(list, i, cells)
  {
    hide Tells, Llrb.Valid, Counts, Shares;
    AfterScan(OpsOf(list), i, list[i]);
    NoCells();
  }

  /** `jit_collect_statistics`. */
  method CollectStatistics(list: seq<Scanned>)
    requires forall i, j :: 0 <= i < j < |list| ==> list[i] != list[j]
    modifies list
    ensures forall i :: 0 <= i < |list| ==> SiteTells(OpsOf(list), i, list[i].ToSite()) && HintsExact(list[i].ToSite())
    ensures forall i :: 0 <= i < |list| ==> Tallied(OpsOf(list), OutsOf(list), i, list[i].ToSite())
  {
    hide Tells, HintsExact, SiteTells, Llrb.Valid, Llrb.Contents, OwnCells, Counts, Shares, Tallied, Scanned.ToSite;
    ghost var ops, outs := OpsOf(list), OutsOf(list);
    ghost var cells: set<HintCell> := {};
    var last: Llrb.Tree<HintCell> := Llrb.Leaf;
    NoCells();
    var opsFromReturn, i := 0, |list|;
    while i > 0
      invariant 0 <= i <= |list| && fresh(cells)
      invariant CameTo(list, i, last, opsFromReturn, cells) && Tallying(list, i, cells)
    {
      hide CameTo, Tallying;
      i := i - 1;
      last, opsFromReturn, cells := ScanNext(list, i, last, opsFromReturn, cells);
    }
    forall k | 0 <= k < |list|
      ensures SiteTells(ops, k, list[k].ToSite()) && HintsExact(list[k].ToSite()) && Tallied(ops, outs, k, list[k].ToSite())
    {
      DoneIsExact(ops, k, list[k]);
      CountsAreTold(ops, outs, k, list[k], TallyOf(cells));
    }
  }
}
