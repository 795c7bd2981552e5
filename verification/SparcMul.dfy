/** Multiplication by a constant on SPARC: the bit count of `myjit/util.h` and the
    shift-and-add sequence of `myjit/sparc-specific.h`, run on a register machine. */
module SparcMul {
  import opened Bits
  import LongImm
  import Ops

  const W: nat := 0x1_0000_0000

  // ----- Counting bits -----

  function Ones(x: nat): nat {
    if x == 0 then 0 else x % 2 + Ones(x / 2)
  }

  /** The sum of the `w`-bit fields of `x`. */
  function FieldSum(x: nat, w: nat): nat
    requires w > 0
  {
    if x == 0 then 0
    else
      FieldsShrink(x, w);
      x % Pow2(w) + FieldSum(x / Pow2(w), w)
  }

  lemma FieldsShrink(x: nat, w: nat)
    requires w > 0 && x > 0
    ensures x / Pow2(w) < x
  {
    assert Pow2(w) >= 2;
    Below(x, Pow2(w));
  }

  lemma Below(x: nat, k: nat)
    requires x > 0 && k >= 2
    ensures x / k < x
  {
    var q := x / k;
    if q >= x {
      LargerMultiple(k, x, q);
      LargerMultiple(x, 2, k);
    }
  }

  /** `n` blocks of `w` ones beside `w` zeros. */
  function Mask(w: nat, n: nat): nat {
    if n == 0 then 0 else Pow2(w) - 1 + Pow2(2 * w) * Mask(w, n - 1)
  }

  /** One line of the count: the even fields beside the odd fields. */
  function Stage(x: nat, w: nat, n: nat): nat {
    And(x, Mask(w, n)) + And(x / Pow2(w), Mask(w, n))
  }

  /** And of two words made of a low part below `Pow2(k)` and a high part. */
  lemma {:induction false} AndSplits(k: nat, a: nat, b: nat, c: nat, d: nat)
    requires a < Pow2(k) && c < Pow2(k)
    ensures And(a + Pow2(k) * b, c + Pow2(k) * d) == And(a, c) + Pow2(k) * And(b, d)
  {
    if k > 0 {
      AndSplits(k - 1, a / 2, b, c / 2, d);
      AndSplitsOn(Pow2(k - 1), a, b, c, d);
    }
  }

  lemma AndSplitsOn(h: nat, a: nat, b: nat, c: nat, d: nat)
    requires And(a / 2 + h * b, c / 2 + h * d) == And(a / 2, c / 2) + h * And(b, d)
    ensures And(a + 2 * h * b, c + 2 * h * d) == And(a, c) + 2 * h * And(b, d)
  {
    hide And;
    Halves(h, a, b);
    Halves(h, c, d);
    AndHalf(a + 2 * h * b, c + 2 * h * d);
    AndHalf(a, c);
    Doubles(h, And(b, d));
  }

  lemma Halves(h: nat, a: nat, b: nat)
    ensures (a + 2 * h * b) / 2 == a / 2 + h * b && (a + 2 * h * b) % 2 == a % 2
  {
    Doubles(h, b);
  }

  lemma Doubles(h: nat, b: nat)
    ensures 2 * h * b == 2 * (h * b)
  {
  }

  lemma AndHalf(a: nat, b: nat)
    ensures And(a, b) == 2 * And(a / 2, b / 2) + if a % 2 == 1 && b % 2 == 1 then 1 else 0
  {
  }

  /** A low field kept, the field above it cleared. */
  lemma MaskBlock(w: nat, lo: nat, hi: nat, rest: nat, m: nat)
    requires lo < Pow2(w) && hi < Pow2(w)
    ensures And(lo + Pow2(w) * hi + Pow2(2 * w) * rest, Pow2(w) - 1 + Pow2(2 * w) * m) == lo + Pow2(2 * w) * And(rest, m)
  {
    hide And, Pow2;
    var p := Pow2(w);
    SquareOf(w);
    FieldsFit(p, lo, hi);
    LargerMultiple(p, 1, p);
    AndSplits(2 * w, lo + p * hi, rest, p - 1, m);
    AndSplits(w, lo, hi, p - 1, 0);
    AndOnes(lo, w);
    AndNothing(hi);
    assert p - 1 + p * 0 == p - 1;
  }

  lemma {:induction false} AndNothing(x: nat)
    ensures And(x, 0) == 0
  {
    if x > 0 {
      AndNothing(x / 2);
    }
  }

  lemma FieldsFit(p: nat, lo: nat, hi: nat)
    requires lo < p && hi < p
    ensures lo + p * hi < p * p
  {
    LargerMultiple(p, hi, p - 1);
    assert p * (p - 1) == p * p - p;
  }

  lemma SecondField(x: nat, p: nat, q: nat, lo: nat, hi: nat, rest: nat)
    requires q == p * p && lo < p && x == lo + p * hi + q * rest
    ensures x / p == hi + p * rest
  {
    Associates(p, p, rest);
    Distributes(p, hi, p * rest);
    Remainder(x, p, hi + p * rest, lo);
  }

  lemma Regroups(p: nat, q: nat, hi: nat, rest: nat)
    requires p > 0 && q == p * p
    ensures hi + p * rest == hi + p * (rest % p) + q * (rest / p)
  {
    Associates(p, p, rest / p);
    Distributes(p, rest % p, p * (rest / p));
  }

  /** One block of a stage: the low field and the field above it are added. */
  lemma StageBlock(x: nat, w: nat, n: nat, lo: nat, hi: nat, rest: nat)
    requires n > 0 && lo < Pow2(w) && hi < Pow2(w)
    requires x == lo + Pow2(w) * hi + Pow2(2 * w) * rest
    ensures Stage(x, w, n) == lo + hi + Pow2(2 * w) * Stage(rest, w, n - 1)
  {
    hide And, Pow2, Mask, Stage;
    var m := Mask(w, n - 1);
    MaskIs(w, n);
    SquareOf(w);
    MaskBlock(w, lo, hi, rest, m);
    SecondField(x, Pow2(w), Pow2(2 * w), lo, hi, rest);
    Regroups(Pow2(w), Pow2(2 * w), hi, rest);
    MaskBlock(w, hi, rest % Pow2(w), rest / Pow2(w), m);
    StageIs(x, w, n, And(rest, m), And(rest / Pow2(w), m), lo, hi);
    StageOf(rest, w, n - 1);
  }

  lemma MaskIs(w: nat, n: nat)
    requires n > 0
    ensures Mask(w, n) == Pow2(w) - 1 + Pow2(2 * w) * Mask(w, n - 1)
  {
  }

  lemma SquareOf(w: nat)
    ensures Pow2(2 * w) == Pow2(w) * Pow2(w)
  {
    hide Pow2;
    Pow2Adds(w, w);
    assert w + w == 2 * w;
  }

  lemma StageOf(x: nat, w: nat, n: nat)
    ensures Stage(x, w, n) == And(x, Mask(w, n)) + And(x / Pow2(w), Mask(w, n))
  {
  }

  lemma StageIs(x: nat, w: nat, n: nat, a: nat, b: nat, lo: nat, hi: nat)
    requires n > 0 && And(x, Mask(w, n)) == lo + Pow2(2 * w) * a && And(x / Pow2(w), Mask(w, n)) == hi + Pow2(2 * w) * b
    ensures Stage(x, w, n) == lo + hi + Pow2(2 * w) * (a + b)
  {
    Distributes(Pow2(2 * w), a, b);
  }

  lemma Distributes(p: nat, a: nat, b: nat)
    ensures p * (a + b) == p * a + p * b
  {
  }

  lemma Associates(p: nat, q: nat, a: nat)
    ensures p * (q * a) == p * q * a
  {
  }

  /** One more than the greatest word of `n` blocks. */
  function Span(w: nat, n: nat): nat {
    if n == 0 then 1 else Pow2(2 * w) * Span(w, n - 1)
  }

  lemma SpanIs(w: nat, n: nat)
    ensures Span(w, n) == if n == 0 then 1 else Pow2(2 * w) * Span(w, n - 1)
  {
  }

  /** A stage keeps the sum of the fields while it doubles their width. */
  lemma {:induction false} StageKeepsSum(x: nat, w: nat, n: nat)
    requires w > 0 && x < Span(w, n)
    ensures Stage(x, w, n) < Span(w, n) && FieldSum(Stage(x, w, n), 2 * w) == FieldSum(x, w)
  {
    hide And, Pow2, Stage, FieldSum, Span, Mask;
    if n == 0 {
      SpanIs(w, n);
      EmptyStage(w);
    } else {
      var lo, hi, rest := TwoFields(x, w);
      SpanIs(w, n);
      Quotient(rest, lo + Pow2(w) * hi, Pow2(2 * w), Span(w, n - 1));
      StageKeepsSum(rest, w, n - 1);
      StageStep(x, w, n, lo, hi, rest);
    }
  }

  lemma StageStep(x: nat, w: nat, n: nat, lo: nat, hi: nat, rest: nat)
    requires w > 0 && n > 0 && lo < Pow2(w) && hi < Pow2(w)
    requires x == lo + Pow2(w) * hi + Pow2(2 * w) * rest
    requires Stage(rest, w, n - 1) < Span(w, n - 1)
    ensures Stage(x, w, n) < Span(w, n)
    ensures FieldSum(Stage(x, w, n), 2 * w) == lo + hi + FieldSum(Stage(rest, w, n - 1), 2 * w)
  {
    hide And, Pow2, Stage, FieldSum, Span, Mask;
    StageBlock(x, w, n, lo, hi, rest);
    SquareOf(w);
    Sum(Pow2(w), lo, hi);
    SpanIs(w, n);
    Block(lo + hi, Pow2(2 * w), Stage(rest, w, n - 1), Span(w, n - 1));
    OneField(Stage(x, w, n), 2 * w, lo + hi, Stage(rest, w, n - 1));
  }

  lemma EmptyStage(w: nat)
    requires w > 0
    ensures Stage(0, w, 0) == 0 && FieldSum(0, w) == 0 && FieldSum(0, 2 * w) == 0
  {
  }

  lemma Quotient(rest: nat, low: nat, q: nat, k: nat)
    requires low + q * rest < q * k
    ensures rest < k
  {
    if rest >= k {
      LargerMultiple(q, k, rest);
    }
  }

  lemma Sum(p: nat, lo: nat, hi: nat)
    requires lo < p && hi < p
    ensures lo + hi < p * p
  {
    LargerMultiple(p, if p >= 2 then 2 else 1, p);
  }

  lemma Block(low: nat, q: nat, rest: nat, k: nat)
    requires low < q && rest < k
    ensures low + q * rest < q * k
  {
    LargerMultiple(q, rest + 1, k);
    Distributes(q, rest, 1);
  }

  lemma OneField(x: nat, w: nat, low: nat, rest: nat)
    requires w > 0 && low < Pow2(w) && x == low + Pow2(w) * rest
    ensures FieldSum(x, w) == low + FieldSum(rest, w)
  {
    hide Pow2;
    Remainder(x, Pow2(w), rest, low);
    if x == 0 && rest > 0 {
      LargerMultiple(Pow2(w), 1, rest);
    }
  }

  /** The two lowest fields of a word. */
  lemma TwoFields(x: nat, w: nat) returns (lo: nat, hi: nat, rest: nat)
    requires w > 0
    ensures lo < Pow2(w) && hi < Pow2(w) && x == lo + Pow2(w) * hi + Pow2(2 * w) * rest
    ensures FieldSum(x, w) == lo + hi + FieldSum(rest, w)
  {
    hide FieldSum, Pow2;
    var p := Pow2(w);
    lo, hi, rest := x % p, x / p % p, x / p / p;
    SquareOf(w);
    Regroups(p, Pow2(2 * w), x % p, x / p);
    OneField(x, w, lo, x / p);
    OneField(x / p, w, hi, rest);
  }

  lemma {:induction false} OnesAreFields(x: nat)
    ensures FieldSum(x, 1) == Ones(x)
  {
    if x > 0 {
      OnesAreFields(x / 2);
    }
  }

  lemma Masks()
    ensures Mask(1, 16) == 0x5555_5555 && Mask(2, 8) == 0x3333_3333 && Mask(4, 4) == 0x0f0f_0f0f
    ensures Mask(8, 2) == 0x00ff_00ff && Mask(16, 1) == 0x0000_ffff
  {
    Shifts();
    assert Mask(1, 4) == 0x55;
    assert Mask(1, 8) == 0x5555;
    assert Mask(1, 12) == 0x55_5555;
    assert Mask(2, 4) == 0x3333;
  }

  lemma Spans()
    ensures Span(1, 16) == Span(2, 8) == Span(4, 4) == Span(8, 2) == Span(16, 1) == Pow2(32) == W
  {
    Shifts();
    Pow2Adds(16, 16);
    assert Span(1, 4) == 0x100;
    assert Span(1, 8) == 0x1_0000;
    assert Span(1, 12) == 0x100_0000;
    assert Span(2, 4) == 0x1_0000;
  }

  lemma Shifts()
    ensures Pow2(1) == 2 && Pow2(2) == 4 && Pow2(4) == 16 && Pow2(8) == 256 && Pow2(16) == 0x1_0000
  {
  }

  lemma WholeField(x: nat)
    requires x < Pow2(32)
    ensures FieldSum(x, 32) == x
  {
    hide Pow2;
    OneField(x, 32, x, 0);
  }

  /** `_bit_pop`; additions of unsigned words wrap around. */
  method BitPop(word: nat) returns (x: nat)
    requires word < W
    ensures x == Ones(word)
  {
    hide And, Pow2, Stage, FieldSum, Span, Mask;
    Masks();
    Spans();
    Shifts();
    x := word;
    OnesAreFields(x);
    StageKeepsSum(x, 1, 16);
    StageOf(x, 1, 16);
    x := (And(x, 0x5555_5555) + And(x / 2, 0x5555_5555)) % W;
    StageKeepsSum(x, 2, 8);
    StageOf(x, 2, 8);
    x := (And(x, 0x3333_3333) + And(x / 4, 0x3333_3333)) % W;
    StageKeepsSum(x, 4, 4);
    StageOf(x, 4, 4);
    x := (And(x, 0x0f0f_0f0f) + And(x / 16, 0x0f0f_0f0f)) % W;
    StageKeepsSum(x, 8, 2);
    StageOf(x, 8, 2);
    x := (And(x, 0x00ff_00ff) + And(x / 256, 0x00ff_00ff)) % W;
    StageKeepsSum(x, 16, 1);
    StageOf(x, 16, 1);
    x := (And(x, 0x0000_ffff) + And(x / 0x1_0000, 0x0000_ffff)) % W;
    WholeField(x);
  }

  // ----- The register machine -----

  const G0: nat := 0
  const G1: nat := 1
  const G2: nat := 2

  /** The instructions the multiplication uses; `imm` is the 13-bit field of one
      with an immediate, which the processor extends by its sign. */
  datatype Insn =
    | Sll(rs: nat, count: nat, rd: nat)
    | Add(rs: nat, rt: nat, rd: nat)
    | Sub(rs: nat, rt: nat, rd: nat)
    | Mov(rs: nat, rd: nat)
    | Mul(rs: nat, rt: nat, rd: nat)
    | MulImm(rs: nat, imm: int, rd: nat)

  type Regs = seq<nat>

  /** Thirty-two words, of which %g0 is always zero. */
  predicate Good(regs: Regs) {
    |regs| == 32 && regs[G0] == 0 && forall k :: 0 <= k < 32 ==> regs[k] < W
  }

  /** A register the allocator hands out. */
  predicate Usable(r: nat) {
    G2 < r < 32
  }

  predicate WellFormed(i: Insn) {
    i.rs < 32 && i.rd < 32 && (i.Add? || i.Sub? || i.Mul? ==> i.rt < 32)
  }

  function Extended(imm: int): int {
    (imm + 0x1000) % 0x2000 - 0x1000
  }

  predicate Fits13(imm: int) {
    -0x1000 <= imm < 0x1000
  }

  function Value(i: Insn, regs: Regs): int
    requires Good(regs) && WellFormed(i)
  {
    match i
    case Sll(s, count, _) => regs[s] * Pow2(count)
    case Add(s, t, _) => regs[s] + regs[t]
    case Sub(s, t, _) => (regs[s] as int) - regs[t]
    case Mov(s, _) => regs[s]
    case Mul(s, t, _) => regs[s] * regs[t]
    case MulImm(s, imm, _) => regs[s] * Extended(imm)
  }

  function Step(i: Insn, regs: Regs): (r: Regs)
    requires Good(regs) && WellFormed(i)
    ensures Good(r)
  {
    if i.rd == G0 then regs else regs[i.rd := Value(i, regs) % W]
  }

  predicate Runs(code: seq<Insn>) {
    forall k :: 0 <= k < |code| ==> WellFormed(code[k])
  }

  function Run(code: seq<Insn>, regs: Regs): (r: Regs)
    requires Good(regs) && Runs(code)
    ensures Good(r)
  {
    if code == [] then regs else Step(code[|code| - 1], Run(code[..|code| - 1], regs))
  }

  /** What `code` does from `regs`: `rd` gets `rs` times `factor`, modulo the word
      size, and nothing else changes but the two scratch registers. */
  predicate Multiplies(code: seq<Insn>, regs: Regs, rd: nat, rs: nat, factor: int)
    requires Good(regs) && Runs(code) && rd < 32 && rs < 32
  {
    && Run(code, regs)[rd] == regs[rs] * factor % W
    && forall k :: 0 <= k < 32 && k != G1 && k != G2 && k != rd ==> Run(code, regs)[k] == regs[k]
  }

  /** The code multiplies from every state. */
  ghost predicate Computes(code: seq<Insn>, rd: nat, rs: nat, factor: int) {
    Runs(code) && rd < 32 && rs < 32 && forall regs :: Good(regs) ==> Multiplies(code, regs, rd, rs, factor)
  }

  lemma RunAppend(code: seq<Insn>, i: Insn, regs: Regs)
    requires Good(regs) && Runs(code) && WellFormed(i)
    ensures Runs(code + [i]) && Run(code + [i], regs) == Step(i, Run(code, regs))
  {
    hide Step;
    assert (code + [i])[..|code|] == code;
  }

  lemma RunSingle(i: Insn, regs: Regs)
    requires Good(regs) && WellFormed(i)
    ensures Runs([i]) && Run([i], regs) == Step(i, regs)
  {
    hide Step;
    RunAppend([], i, regs);
    assert [] + [i] == [i];
  }

  /** A single instruction that stores the product. */
  lemma SingleComputes(i: Insn, rs: nat, factor: int)
    requires WellFormed(i) && i.rd != G0 && rs < 32
    requires forall regs :: Good(regs) ==> Value(i, regs) == regs[rs] * factor
    ensures Computes([i], i.rd, rs, factor)
  {
    forall regs | Good(regs)
      ensures Runs([i]) && Multiplies([i], regs, i.rd, rs, factor)
    {
      RunSingle(i, regs);
    }
  }

  /** Another shifted copy of the factor is added to the sum in %g1. */
  lemma AddComputes(code: seq<Insn>, rs: nat, low: nat, count: nat, rd: nat)
    requires Usable(rs) && Computes(code, G1, rs, low) && (rd == G1 || Usable(rd))
    ensures Computes(code + [Sll(rs, count, G2)] + [Add(G1, G2, rd)], rd, rs, low + Pow2(count))
  {
    hide Multiplies, Run, Pow2;
    forall regs | Good(regs)
      ensures Runs(code + [Sll(rs, count, G2)] + [Add(G1, G2, rd)])
      ensures Multiplies(code + [Sll(rs, count, G2)] + [Add(G1, G2, rd)], regs, rd, rs, low + Pow2(count))
    {
      AddMultiplies(code, regs, rs, low, count, rd);
    }
  }

  lemma AddMultiplies(code: seq<Insn>, regs: Regs, rs: nat, low: nat, count: nat, rd: nat)
    requires Usable(rs) && (rd == G1 || Usable(rd))
    requires Good(regs) && Runs(code) && Multiplies(code, regs, G1, rs, low)
    ensures Runs(code + [Sll(rs, count, G2)] + [Add(G1, G2, rd)])
    ensures Multiplies(code + [Sll(rs, count, G2)] + [Add(G1, G2, rd)], regs, rd, rs, low + Pow2(count))
  {
    hide Run, Pow2, Step;
    var sll, add := Sll(rs, count, G2), Add(G1, G2, rd);
    var was := Run(code, regs);
    RunAppend(code, sll, regs);
    RunAppend(code + [sll], add, regs);
    StepIs(sll, was);
    StepIs(add, Step(sll, was));
    SumOfProducts(regs[rs], low, Pow2(count));
  }

  lemma StepIs(i: Insn, regs: Regs)
    requires Good(regs) && WellFormed(i) && i.rd != G0
    ensures Step(i, regs) == regs[i.rd := Value(i, regs) % W]
  {
    hide Value;
  }

  lemma SumOfProducts(x: nat, a: int, b: int)
    ensures (x * a % W + x * b % W) % W == x * (a + b) % W
  {
    Sums(x * a, x * b);
    Spreads(x, a, b);
  }

  lemma Sums(p: int, q: int)
    ensures (p % W + q % W) % W == (p + q) % W
  {
  }

  lemma Spreads(x: nat, a: int, b: int)
    ensures x * (a + b) == x * a + x * b
  {
  }

  lemma NegateComputes(code: seq<Insn>, rd: nat, rs: nat, factor: int)
    requires Usable(rd) && Computes(code, rd, rs, factor)
    ensures Computes(code + [Sub(G0, rd, rd)], rd, rs, -factor)
  {
    hide Run, Step;
    var sub := Sub(G0, rd, rd);
    forall regs | Good(regs)
      ensures Runs(code + [sub]) && Multiplies(code + [sub], regs, rd, rs, -factor)
    {
      assert Multiplies(code, regs, rd, rs, factor);
      RunAppend(code, sub, regs);
      StepIs(sub, Run(code, regs));
      Opposite(regs[rs], factor);
    }
  }

  lemma Opposite(x: nat, a: int)
    ensures (0 - x * a % W) % W == x * -a % W
  {
    assert x * -a == -(x * a);
    NegativeOf(x * a);
  }

  lemma NegativeOf(p: int)
    ensures (0 - p % W) % W == -p % W
  {
  }

  /** Only the factor modulo the word size matters. */
  lemma CongruentComputes(code: seq<Insn>, rd: nat, rs: nat, a: int, b: int)
    requires Computes(code, rd, rs, a) && a % W == b % W
    ensures Computes(code, rd, rs, b)
  {
    hide Run;
    forall regs | Good(regs)
      ensures Multiplies(code, regs, rd, rs, b)
    {
      assert Multiplies(code, regs, rd, rs, a);
      Congruent(regs[rs], a, b);
    }
  }

  lemma Congruent(x: nat, a: int, b: int)
    requires a % W == b % W
    ensures x * a % W == x * b % W
  {
    var k := a / W - b / W;
    assert a == b + k * W;
    var m := x * k;
    assert x * a == x * b + m * W by { Scales(x, b, k, W); }
    assert (x * b + m * W) % W == x * b % W;
  }

  lemma Scales(x: nat, b: int, k: int, w: nat)
    ensures x * (b + k * w) == x * b + x * k * w
  {
  }

  // ----- Emitting -----

  /** A lowest digit taken off. */
  lemma Remaining(low: nat, i: nat, ar: nat)
    ensures low + Pow2(i) * ar == low + (if ar % 2 == 1 then Pow2(i) else 0) + Pow2(i + 1) * (ar / 2)
    ensures Ones(ar) == ar % 2 + Ones(ar / 2)
  {
    Distributes(Pow2(i), ar % 2, 2 * (ar / 2));
    Associates(Pow2(i), 2, ar / 2);
  }

  lemma {:induction false} NoOnes(x: nat)
    ensures Ones(x) == 0 <==> x == 0
  {
    if x > 0 {
      NoOnes(x / 2);
    }
  }

  lemma ShiftComputes(rs: nat, count: nat, rd: nat)
    requires Usable(rs) && rd != G0 && rd < 32
    ensures Computes([Sll(rs, count, rd)], rd, rs, Pow2(count))
  {
    SingleComputes(Sll(rs, count, rd), rs, Pow2(count));
  }

  lemma AllDigits(low: nat, ar: nat, v: nat)
    requires v < W && v == low + Pow2(32) * ar
    ensures ar == 0
  {
    Spans();
    LargerMultiple(Pow2(32), 1, if ar > 0 then ar else 1);
  }

  /** `emit_optimized_multiplication`. */
  method EmitOptimized(a1: nat, a2: nat, a3: int) returns (code: seq<Insn>)
    requires Usable(a1) && Usable(a2) && a3 % W != 0
    ensures Computes(code, a1, a2, a3)
  {
    hide Computes, Ones, Pow2;
    code := [];
    var bits := BitPop(a3 % W);
    var ar: nat := a3 % W;
    var inTmp := false;
    ghost var low: nat := 0;
    NoOnes(ar);
    assert Pow2(0) == 1 by { Start(); }
    for i := 0 to 32
      invariant a3 % W == low + Pow2(i) * ar
      invariant bits == Ones(ar) > 0
      invariant inTmp <==> low > 0
      invariant if inTmp then Computes(code, G1, a2, low) else code == []
    {
      Remaining(low, i, ar);
      if ar % 2 == 1 {
        bits := bits - 1;
        if bits == 0 {
          NoOnes(ar / 2);
          if !inTmp {
            code := code + [Sll(a2, i, a1)];
            ShiftComputes(a2, i, a1);
            assert code == [Sll(a2, i, a1)];
          } else {
            AddComputes(code, a2, low, i, a1);
            code := code + [Sll(a2, i, G2)];
            code := code + [Add(G1, G2, a1)];
          }
          CongruentComputes(code, a1, a2, low + Pow2(i), a3);
        } else {
          if !inTmp {
            code := code + [Sll(a2, i, G1)];
            ShiftComputes(a2, i, G1);
            assert code == [Sll(a2, i, G1)];
            inTmp := true;
          } else {
            AddComputes(code, a2, low, i, G1);
            code := code + [Sll(a2, i, G2)];
            code := code + [Add(G1, G2, G1)];
          }
          low := low + Pow2(i);
        }
      }
      ar := ar / 2;
      if bits == 0 {
        return;
      }
    }
    AllDigits(low, ar, a3 % W);
    NoOnes(ar);
  }

  lemma Start()
    ensures Pow2(0) == 1
  {
  }

  /** The range of a C `long` here. */
  predicate Long(x: int) {
    -0x8000_0000 <= x < 0x8000_0000
  }

  /** An immediate that needs at most five shifts, up to its sign. */
  predicate FewBits(a3: int) {
    a3 == 0 || (if a3 > 0 then Ones(a3) else Ones(-a3)) <= 5
  }

  /** An immediate too wide for its field gives the wrong product of one. */
  lemma WideImmediate(a1: nat, a2: nat, a3: int)
    requires Usable(a1) && Usable(a2) && Long(a3)
    ensures Computes([MulImm(a2, a3, a1)], a1, a2, a3) <==> Fits13(a3)
  {
    var i := MulImm(a2, a3, a1);
    if Fits13(a3) {
      SingleComputes(i, a2, a3);
    } else {
      var ones := seq(32, k => if k == 0 then 0 else 1);
      RunSingle(i, ones);
      assert Run([i], ones)[a1] == Extended(a3) % W;
      assert ones[a2] * a3 == a3;
      assert !Multiplies([i], ones, a1, a2, a3);
    }
  }

  /** `emit_mul` for an operation with an immediate: it multiplies exactly by the
      factors with at most five bits, up to the sign, and those that fit the field. */
  method EmitMulImm(a1: nat, a2: nat, a3: int) returns (code: seq<Insn>)
    requires Usable(a1) && Usable(a2) && Long(a3)
    ensures Computes(code, a1, a2, a3) <==> FewBits(a3) || Fits13(a3)
  {
    hide Computes, Ones;
    if a3 == 0 {
      SingleComputes(Mov(G0, a1), a2, 0);
      return [Mov(G0, a1)];
    }
    if a3 == 1 {
      OneBit();
      if a1 != a2 {
        SingleComputes(Mov(a2, a1), a2, 1);
        return [Mov(a2, a1)];
      }
      NothingToDo(a1);
      return [];
    }
    SmallFactor(a3);
    var bits := BitPop(a3 % W);
    var opposite := BitPop(-a3 % W);
    if a3 > 0 && bits <= 5 {
      code := EmitOptimized(a1, a2, a3);
      return;
    }
    if a3 < 0 && opposite <= 5 {
      code := EmitOptimized(a1, a2, -a3);
      NegateComputes(code, a1, a2, -a3);
      code := code + [Sub(G0, a1, a1)];
      return;
    }
    WideImmediate(a1, a2, a3);
    return [MulImm(a2, a3, a1)];
  }

  lemma SmallFactor(a3: int)
    requires Long(a3)
    ensures (a3 >= 0 ==> a3 % W == a3) && (a3 <= 0 ==> -a3 % W == -a3)
  {
  }

  lemma OneBit()
    ensures Ones(1) == 1
  {
  }

  lemma NothingToDo(r: nat)
    requires Usable(r)
    ensures Computes([], r, r, 1)
  {
    forall regs | Good(regs)
      ensures Multiplies([], regs, r, r, 1)
    {
    }
  }

  /** `emit_mul` for an operation on registers; the unsigned form passes the number
      of the third register to the instruction with an immediate. */
  function EmitMulReg(signed: bool, a1: nat, a2: nat, a3: nat): seq<Insn> {
    if signed then [Mul(a2, a3, a1)] else [MulImm(a2, a3, a1)]
  }

  /** The code leaves the product of two registers, from every state. */
  ghost predicate ComputesProduct(code: seq<Insn>, rd: nat, rs: nat, rt: nat) {
    && Runs(code) && rd < 32 && rs < 32 && rt < 32
    && forall regs :: Good(regs) ==> Run(code, regs)[rd] == regs[rs] * regs[rt] % W
  }

  lemma SignedProduct(a1: nat, a2: nat, a3: nat)
    requires Usable(a1) && Usable(a2) && Usable(a3)
    ensures ComputesProduct(EmitMulReg(true, a1, a2, a3), a1, a2, a3)
  {
    forall regs | Good(regs)
      ensures Runs([Mul(a2, a3, a1)]) && Run([Mul(a2, a3, a1)], regs)[a1] == regs[a2] * regs[a3] % W
    {
      RunSingle(Mul(a2, a3, a1), regs);
    }
  }

  lemma UnsignedProduct(a1: nat, a2: nat, a3: nat)
    requires Usable(a1) && Usable(a2) && Usable(a3)
    ensures !ComputesProduct(EmitMulReg(false, a1, a2, a3), a1, a2, a3)
  {
    hide Run, Step;
    var ones: Regs := seq(32, k => if k == 0 then 0 else 1);
    var i := MulImm(a2, a3, a1);
    assert Good(ones) && WellFormed(i);
    RunSingle(i, ones);
    StepIs(i, ones);
    assert Extended(a3) == a3 && ones[a2] * a3 == a3 && ones[a2] * ones[a3] == 1;
    assert Run([i], ones)[a1] == a3;
  }

  /** Only the signed form multiplies two registers. */
  lemma RegisterProduct(signed: bool, a1: nat, a2: nat, a3: nat)
    requires Usable(a1) && Usable(a2) && Usable(a3)
    ensures ComputesProduct(EmitMulReg(signed, a1, a2, a3), a1, a2, a3) <==> signed
  {
    hide ComputesProduct, EmitMulReg;
    if signed {
      SignedProduct(a1, a2, a3);
    } else {
      UnsignedProduct(a1, a2, a3);
    }
  }

  // ----- After long immediates are lowered -----

  /** Twelve bits beside the sign, 32-bit words. */
  const SPARC := LongImm.Target(32, 12, 4)

  /** An immediate multiplication as lowering leaves it. */
  predicate LoweredMul(op: Ops.Op) {
    op.code == Ops.MUL && op.mode == Ops.ImmForm && op.t2 == Ops.IMM && Long(op.a2)
  }

  lemma LoweredMulFits(ops: seq<Ops.Op>, l: LongImm.Lowered, i: nat)
    requires LongImm.LoweredList(SPARC, ops, l) && i < |ops| && LoweredMul(l.ops[i])
    ensures Fits13(l.ops[i].a2)
  {
    hide Pow2, LongImm.ImmShape, LongImm.Lower;
    var op := l.ops[i];
    assert Pow2(12) == 0x1000 && Pow2(31) == 0x8000_0000 by { SparcSizes(); }
    LongImm.RemainingImmsFit(SPARC, ops, l, i);
  }

  lemma SparcSizes()
    ensures Pow2(12) == 0x1000 && Pow2(31) == 0x8000_0000
  {
    Shifts();
    Pow2Adds(8, 4);
    Pow2Adds(16, 8);
    Pow2Adds(24, 4);
    Pow2Adds(28, 2);
    Pow2Adds(30, 1);
  }

  /** After lowering, `emit_mul` with an immediate is right for every factor. */
  method EmitLoweredMul(op: Ops.Op, a1: nat, a2: nat, ghost ops: seq<Ops.Op>, ghost l: LongImm.Lowered, ghost i: nat)
    returns (code: seq<Insn>)
    requires LongImm.LoweredList(SPARC, ops, l) && i < |ops| && l.ops[i] == op && LoweredMul(op)
    requires Usable(a1) && Usable(a2)
    ensures Computes(code, a1, a2, op.a2)
  {
    LoweredMulFits(ops, l, i);
    code := EmitMulImm(a1, a2, op.a2);
  }
}
