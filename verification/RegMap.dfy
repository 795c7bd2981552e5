/** Register maps and the choice of a register to spill: `myjit/rmap.h`. */
module RegMap {
  import opened Ops

  predicate Injective(m: map<int, int>) {
    forall u, v :: u in m && v in m && m[u] == m[v] ==> u == v
  }

  /** Virtual register to hardware register; no two share one.  Every function
      that returns an Rmap proves that it keeps it so. */
  type Rmap = m: map<int, int> | Injective(m) witness map[]

  /** `rmap_is_associated`: the virtual register that `h` holds. */
  function IsAssociated(m: Rmap, h: int): (r: Option<int>)
    ensures r.Some? ==> r.value in m && m[r.value] == h
    ensures r.None? ==> forall v :: v in m ==> m[v] != h
  {
    if exists v :: v in m && m[v] == h then
      var v :| v in m && m[v] == h;
      Some(v)
    else
      None
  }

  predicate IsFree(m: Rmap, h: int) {
    forall v :: v in m ==> m[v] != h
  }

  function Assoc(m: Rmap, v: int, h: int): Rmap
    requires forall u :: u in m && m[u] == h ==> u == v
  {
    m[v := h]
  }

  function Unassoc(m: Rmap, v: int): Rmap {
    m - {v}
  }

  datatype HwReg = HwReg(id: int, calleeSaved: bool, priority: int)

  /** The allocator's registers.  `fpReg` is the frame pointer, outside the pool. */
  datatype Pool = Pool(regs: seq<HwReg>, ret: HwReg, args: seq<HwReg>, fpReg: int, ax: int)

  predicate PoolOk(p: Pool) {
    && 3 <= |p.regs|
    && (forall i, j :: 0 <= i < j < |p.regs| ==> p.regs[i].id != p.regs[j].id)
    && (forall i :: 0 <= i < |p.regs| ==> p.regs[i].id != p.fpReg && -0x8000 <= p.regs[i].priority <= 0x7fff)
    && p.ret in p.regs
    && (forall i :: 0 <= i < |p.args| ==> p.args[i] in p.regs)
    && (forall i, j :: 0 <= i < j < |p.args| ==> p.args[i].id != p.args[j].id)
  }

  predicate InPool(p: Pool, m: Rmap) {
    forall v :: v in m ==> exists r :: r in p.regs && r.id == m[v]
  }

  /** `jit_allocator_hint`: where the register is next mentioned, counted from the
      end of the function, and two tallies. */
  datatype Hint = Hint(lastPos: int, calleeSaved: int, eax: int)

  /** One operation with what earlier passes attached to it. */
  datatype Site = Site(op: Op, liveIn: set<int>, liveOut: set<int>,
                       hints: map<int, Hint>, pos: int, inUse: bool)

  /** What `jit_collect_statistics` establishes: the hint of a register is at
      this very position just when the operation mentions the register. */
  predicate HintsExact(s: Site) {
    && (forall v :: v in s.op.Uses() + s.op.Defs() ==> v in s.hints)
    && (forall v :: v in s.hints ==>
          && s.hints[v].lastPos <= s.pos
          && s.hints[v].calleeSaved >= 0 && s.hints[v].eax >= 0
          && (s.hints[v].lastPos == s.pos <==> s.op.Mentions(v)))
  }

  const INT_MIN := -0x8000_0000

  /** `candidate_score`, with the register that would have to be spilled. */
  function CandidateScore(p: Pool, s: Site, m: Rmap, virt: int, hw: HwReg): (r: (int, Option<int>)) {
    var x := IsAssociated(m, hw.id);
    var alive := x.Some? && (x.value in s.liveIn || x.value in s.liveOut);
    var base := -hw.priority + if alive then 0 else 10000;
    if x.Some? && x.value in s.hints && s.hints[x.value].lastPos == s.pos then
      (INT_MIN, x)
    else
      var inUse :=
        if x.None? then 0
        else if x.value !in s.hints then -100000 + 50000
        else -100000 + (s.pos - s.hints[x.value].lastPos) * 5;
      var preference :=
        if virt !in s.hints then 0
        else
          (if hw.id == p.ax then s.hints[virt].eax * 5 else 0) +
          (if hw.calleeSaved then (s.hints[virt].calleeSaved - 1) * 15 else 0);
      (base + inUse + preference, x)
  }

  datatype Choice = Choice(score: int, hw: Option<HwReg>, spill: Option<int>)

  /** The best of the first `n` registers of the pool; the first one wins a tie. */
  function BestOf(p: Pool, s: Site, m: Rmap, virt: int, calleeOnly: bool, n: nat): (c: Choice)
    requires n <= |p.regs|
  {
    if n == 0 then Choice(INT_MIN, None, None)
    else
      var c := BestOf(p, s, m, virt, calleeOnly, n - 1);
      var hw := p.regs[n - 1];
      if calleeOnly && !hw.calleeSaved then c
      else
        var (score, spill) := CandidateScore(p, s, m, virt, hw);
        if score > c.score then Choice(score, Some(hw), spill) else c
  }

  function SpillCandidate(p: Pool, s: Site, m: Rmap, virt: int, calleeOnly: bool): Choice {
    BestOf(p, s, m, virt, calleeOnly, |p.regs|)
  }

  /** `rmap_spill_candidate`. */
  method RmapSpillCandidate(p: Pool, s: Site, m: Rmap, virt: int, calleeOnly: bool)
    returns (result: Option<HwReg>, spill: Option<int>)
    ensures var c := SpillCandidate(p, s, m, virt, calleeOnly); result == c.hw && spill == c.spill
  {
    result, spill := None, None;
    var bestScore := INT_MIN;
    for i := 0 to |p.regs|
      invariant BestOf(p, s, m, virt, calleeOnly, i) == Choice(bestScore, result, spill)
    {
      if calleeOnly && !p.regs[i].calleeSaved {
        continue;
      }
      var (score, sp) := CandidateScore(p, s, m, virt, p.regs[i]);
      if score > bestScore {
        spill := sp;
        result := Some(p.regs[i]);
        bestScore := score;
      }
    }
  }

  /** The choice maximises the score, and what it says about spilling is true. */
  lemma {:induction false} BestOfIsBest(p: Pool, s: Site, m: Rmap, virt: int, calleeOnly: bool, n: nat)
    requires n <= |p.regs|
    ensures var c := BestOf(p, s, m, virt, calleeOnly, n);
      && (forall i :: 0 <= i < n && (calleeOnly ==> p.regs[i].calleeSaved) ==>
            CandidateScore(p, s, m, virt, p.regs[i]).0 <= c.score || c.hw.None?)
      && (c.hw.None? ==>
            && c.score == INT_MIN && c.spill.None?
            && (forall i :: 0 <= i < n && (calleeOnly ==> p.regs[i].calleeSaved) ==>
                  CandidateScore(p, s, m, virt, p.regs[i]).0 <= INT_MIN))
      && (c.hw.Some? ==>
            && c.hw.value in p.regs[..n]
            && (calleeOnly ==> c.hw.value.calleeSaved)
            && c.score > INT_MIN
            && CandidateScore(p, s, m, virt, c.hw.value) == (c.score, c.spill)
            && c.spill == IsAssociated(m, c.hw.value.id))
  {
    if n > 0 {
      BestOfIsBest(p, s, m, virt, calleeOnly, n - 1);
      assert p.regs[..n] == p.regs[..n - 1] + [p.regs[n - 1]];
    }
  }

  /** A register that holds no operand of the operation always scores above the
      sentinel, so it can be chosen; one that holds an operand never can. */
  lemma ScoreAboveSentinel(p: Pool, s: Site, m: Rmap, virt: int, hw: HwReg)
    requires PoolOk(p) && HintsExact(s) && hw in p.regs
    ensures var x := IsAssociated(m, hw.id);
      CandidateScore(p, s, m, virt, hw).0 > INT_MIN <==> x.None? || !s.op.Mentions(x.value)
  {
  }

  /** With three or more registers there is always a choice for an operand that
      has no register yet, and it never evicts another operand. */
  lemma SpillCandidateExists(p: Pool, s: Site, m: Rmap, virt: int)
    requires PoolOk(p) && HintsExact(s)
    requires s.op.Mentions(virt) && virt !in m
    ensures var c := SpillCandidate(p, s, m, virt, false);
      && c.hw.Some? && c.hw.value in p.regs
      && c.spill == IsAssociated(m, c.hw.value.id)
      && (c.spill.Some? ==> !s.op.Mentions(c.spill.value))
  {
    BestOfIsBest(p, s, m, virt, false, |p.regs|);
    var c := SpillCandidate(p, s, m, virt, false);
    assert p.regs[..|p.regs|] == p.regs;
    if c.hw.None? {
      // Three registers would hold three distinct operands other than `virt`.
      var x0, x1, x2 := IsAssociated(m, p.regs[0].id), IsAssociated(m, p.regs[1].id), IsAssociated(m, p.regs[2].id);
      ScoreAboveSentinel(p, s, m, virt, p.regs[0]);
      ScoreAboveSentinel(p, s, m, virt, p.regs[1]);
      ScoreAboveSentinel(p, s, m, virt, p.regs[2]);
      assert x0.Some? && x1.Some? && x2.Some?;
      assert x0 != x1 && x1 != x2 && x0 != x2;
      FewOperands(s.op, virt, x0.value, x1.value, x2.value);
    } else {
      ScoreAboveSentinel(p, s, m, virt, c.hw.value);
    }
  }

  lemma FewOperands(op: Op, a: int, b: int, c: int, d: int)
    requires op.Mentions(a) && op.Mentions(b) && op.Mentions(c) && op.Mentions(d)
    ensures a == b || a == c || a == d || b == c || b == d || c == d
  {
    assert forall r :: op.Mentions(r) ==> r == op.a0 || r == op.a1 || r == op.a2;
  }

  // ---- What the weights decide ------------------------------------------------------

  /** Registers that differ in priority only. */
  predicate SameClass(p: Pool, g: HwReg, h: HwReg) {
    g.calleeSaved == h.calleeSaved && (g.id == p.ax <==> h.id == p.ax)
  }

  predicate Alive(s: Site, x: int) {
    x in s.liveIn || x in s.liveOut
  }

  /** How many operations ahead a register is mentioned next; one that is not mentioned
      any more counts as ten thousand operations away. */
  function StepsAhead(s: Site, x: int): int {
    if x in s.hints then s.pos - s.hints[x].lastPos else 10000
  }

  lemma HeldBy(m: Rmap, h: HwReg, x: int)
    requires x in m && m[x] == h.id
    ensures IsAssociated(m, h.id) == Some(x)
  {
  }

  lemma NotHeld(m: Rmap, h: HwReg)
    requires IsFree(m, h.id)
    ensures IsAssociated(m, h.id) == None
  {
  }

  /** A free register beats a held one of its class unless what that holds is needed
      too far ahead. */
  lemma FreeAgainstHeld(p: Pool, s: Site, m: Rmap, virt: int, g: HwReg, h: HwReg, x: int)
    requires PoolOk(p) && HintsExact(s) && g in p.regs && SameClass(p, g, h)
    requires IsFree(m, g.id) && x in m && m[x] == h.id
    ensures CandidateScore(p, s, m, virt, g).0 > CandidateScore(p, s, m, virt, h).0 <==>
      s.op.Mentions(x) || 5 * StepsAhead(s, x) < 100000 + h.priority - g.priority + (if Alive(s, x) then 10000 else 0)
    ensures CandidateScore(p, s, m, virt, h).0 > CandidateScore(p, s, m, virt, g).0 <==>
      !s.op.Mentions(x) && 5 * StepsAhead(s, x) > 100000 + h.priority - g.priority + (if Alive(s, x) then 10000 else 0)
  {
    hide IsAssociated, Op.Uses, Op.Defs;
    HeldBy(m, h, x);
    NotHeld(m, g);
    NeededNow(s, x);
  }

  lemma NeededNow(s: Site, x: int)
    requires HintsExact(s)
    ensures s.op.Mentions(x) <==> x in s.hints && s.hints[x].lastPos == s.pos
  {
  }

  /** Of two held registers, the one needed later is given up, a dead one being worth
      two thousand operations. */
  lemma LaterIsGivenUp(p: Pool, s: Site, m: Rmap, virt: int, g: HwReg, h: HwReg, x: int, y: int)
    requires HintsExact(s) && SameClass(p, g, h) && g.priority == h.priority
    requires x in m && m[x] == g.id && !s.op.Mentions(x) && y in m && m[y] == h.id && !s.op.Mentions(y)
    ensures CandidateScore(p, s, m, virt, g).0 > CandidateScore(p, s, m, virt, h).0 <==>
      StepsAhead(s, x) + (if Alive(s, x) then 0 else 2000) > StepsAhead(s, y) + (if Alive(s, y) then 0 else 2000)
  {
    hide IsAssociated, Op.Uses, Op.Defs;
    HeldBy(m, g, x);
    HeldBy(m, h, y);
    NeededNow(s, x);
    NeededNow(s, y);
  }

  /** Of two free registers, one that calls keep is worth fifteen for every call but the
      first the value lives across, %rax five for every return, and otherwise the lower
      priority number wins. */
  lemma FreeByWeight(p: Pool, s: Site, m: Rmap, virt: int, g: HwReg, h: HwReg)
    requires virt in s.hints && IsFree(m, g.id) && IsFree(m, h.id)
    requires !h.calleeSaved && h.id != p.ax
    ensures CandidateScore(p, s, m, virt, g).0 > CandidateScore(p, s, m, virt, h).0 <==>
      g.priority < h.priority + (if g.id == p.ax then 5 * s.hints[virt].eax else 0)
                   + (if g.calleeSaved then 15 * (s.hints[virt].calleeSaved - 1) else 0)
  {
    hide IsAssociated;
    NotHeld(m, g);
    NotHeld(m, h);
  }
}
