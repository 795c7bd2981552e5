/** A machine of 64-bit words and a memory of bytes, on which everything that is asked of
    a machine holds. */
module WordMachine {
  import opened Ops
  import opened Machine
  import opened Allocation
  import opened AllocSim
  import opened AllocSteps
  import opened Rewrites
  import opened Fusion
  import opened StoreFold
  import opened UnusedAssign
  import LongImm
  import SpillList

  predicate Fits64(x: int) {
    -0x8000_0000_0000_0000 <= x < 0x8000_0000_0000_0000
  }

  /** Conditions, on operands two and three. */
  function Taken64(code: Code, x: int, y: int): bool {
    match code
    case BLT | FBLT => x < y
    case BLE | FBLE => x <= y
    case BGT | FBGT => x > y
    case BGE | FBGE => x >= y
    case BEQ | FBEQ => x == y
    case BNE | FBNE => x != y
    case BOADD => !Fits64(x + y)
    case BNOADD => Fits64(x + y)
    case BOSUB => !Fits64(x - y)
    case BNOSUB => Fits64(x - y)
    case _ => false
  }

  function Operand64(v: seq<int>, i: nat): int {
    if i < |v| then v[i] else 0
  }

  function Value64(s: Sig, v: seq<int>): int {
    if |v| != 3 then 0
    else if s.code == MOV then v[1]
    else if InAlu(s.code) then AluValue(TWO_64, s, v)
    else if s.code in {BOADD, BNOADD} then Word(TWO_64, v[1] + v[2])
    else if s.code in {BOSUB, BNOSUB} then Word(TWO_64, v[1] - v[2])
    else 0
  }

  function Effect64(s: Sig, v: seq<int>, m: Memory): Memory {
    if |v| != 3 || s.size < 0 then m
    else
      match s.code
      case ST => Stored(m, v[0], v[1], s.size)
      case STX => Stored(m, v[0] + v[1], v[2], s.size)
      case X86_STI => Stored(m, v[0], SignExtended(v[1]), s.size)
      case X86_STXI => Stored(m, v[0] + v[1], SignExtended(v[2]), s.size)
      case _ => m
  }

  /** Words of 64 bits, memory of bytes; called functions return nothing of interest. */
  function Machine64(): Env<int, Memory> {
    Env(i => i,
        (s, v, m) => Value64(s, v),
        (s, v, m) => Effect64(s, v, m),
        (s: Sig, v, m) => Taken64(s.code, Operand64(v, 1), Operand64(v, 2)),
        (i, w) => w,
        (f, args, m) => (0, m),
        (h, f, args, m) => 0,
        t => t,
        w => if w >= 0 then Some(w) else None)
  }

  lemma Machine64Is()
    ensures ComputesWords(Machine64(), TWO_64) && StoresBytes(Machine64())
    ensures LongImm.FormsAgree(Machine64()) && SpillList.SpillsSilent(Machine64())
  {
    ComputesWords64();
    StoresBytes64();
    FormsAgree64();
    SpillsSilent64();
  }

  lemma Machine64At(s: Sig, v: seq<int>, m: Memory)
    ensures Machine64().value(s, v, m) == Value64(s, v) && Machine64().effect(s, v, m) == Effect64(s, v, m)
    ensures Machine64().taken(s, v, m) == Taken64(s.code, Operand64(v, 1), Operand64(v, 2))
    ensures Machine64().imm == (i => i)
  {
  }

  lemma ComputesWords64()
    ensures ComputesWords(Machine64(), TWO_64)
  {
    hide Machine64, AluValue, Stored;
    forall s: Sig, v: seq<int>, m: Memory | InAlu(s.code)
      ensures Machine64().effect(s, v, m) == m && (|v| == 3 ==> Machine64().value(s, v, m) == AluValue(TWO_64, s, v))
    {
      Machine64At(s, v, m);
    }
    assert forall i :: Machine64().imm(i) == i by { Machine64At(Sig(NOP, Bare, false, 0, 0), [], x => 0); }
  }

  lemma StoresAt(s: Sig, v: seq<int>, m: Memory)
    ensures s.code == MOV ==> Effect64(s, v, m) == m && (|v| == 3 ==> Value64(s, v) == v[1])
    ensures |v| == 3 && s.size >= 0 ==>
      && (s.code == ST ==> Effect64(s, v, m) == Stored(m, v[0], v[1], s.size))
      && (s.code == STX ==> Effect64(s, v, m) == Stored(m, v[0] + v[1], v[2], s.size))
      && (s.code == X86_STI ==> Effect64(s, v, m) == Stored(m, v[0], SignExtended(v[1]), s.size))
      && (s.code == X86_STXI ==> Effect64(s, v, m) == Stored(m, v[0] + v[1], SignExtended(v[2]), s.size))
  {
    hide AluValue, Stored, SignExtended;
  }

  lemma StoresBytes64()
    ensures StoresBytes(Machine64())
  {
    hide Machine64, Stored, SignExtended, Value64, Effect64;
    forall s: Sig, v: seq<int>, m: Memory
      ensures Machine64().value(s, v, m) == Value64(s, v) && Machine64().effect(s, v, m) == Effect64(s, v, m)
    {
      Machine64At(s, v, m);
    }
    forall s: Sig, v: seq<int>, m: Memory
      ensures s.code == MOV ==> Effect64(s, v, m) == m && (|v| == 3 ==> Value64(s, v) == v[1])
      ensures |v| == 3 && s.size >= 0 ==>
        && (s.code == ST ==> Effect64(s, v, m) == Stored(m, v[0], v[1], s.size))
        && (s.code == STX ==> Effect64(s, v, m) == Stored(m, v[0] + v[1], v[2], s.size))
        && (s.code == X86_STI ==> Effect64(s, v, m) == Stored(m, v[0], SignExtended(v[1]), s.size))
        && (s.code == X86_STXI ==> Effect64(s, v, m) == Stored(m, v[0] + v[1], SignExtended(v[2]), s.size))
    {
      StoresAt(s, v, m);
    }
    assert forall i :: Machine64().imm(i) == i by { Machine64At(Sig(NOP, Bare, false, 0, 0), [], x => 0); }
  }

  lemma SpillsSilent64()
    ensures SpillList.SpillsSilent(Machine64())
  {
    hide Machine64, Stored;
    forall s: Sig, v: seq<int>, m: Memory | s.code == FULL_SPILL
      ensures Machine64().effect(s, v, m) == m
    {
      Machine64At(s, v, m);
    }
  }

  lemma SameForms(s: Sig, v: seq<int>, m: Memory)
    requires !MadeByPasses(s.code)
    ensures Value64(s, v) == Value64(s.(mode := RegForm), v) && Effect64(s, v, m) == Effect64(s.(mode := RegForm), v, m)
  {
    hide Word, Stored, SignExtended;
  }

  lemma FormsAgree64()
    ensures LongImm.FormsAgree(Machine64())
  {
    hide Machine64, Value64, Effect64, Taken64;
    forall s: Sig, v: seq<int>, m: Memory | s.mode == ImmForm && !MadeByPasses(s.code)
      ensures Machine64().value(s, v, m) == Machine64().value(s.(mode := RegForm), v, m)
      ensures Machine64().effect(s, v, m) == Machine64().effect(s.(mode := RegForm), v, m)
      ensures Machine64().taken(s, v, m) == Machine64().taken(s.(mode := RegForm), v, m)
    {
      Machine64At(s, v, m);
      Machine64At(s.(mode := RegForm), v, m);
      SameForms(s, v, m);
    }
    forall s: Sig, v: seq<int>, m: Memory | |v| == 3 && s.code == MOV
      ensures Machine64().value(s, v, m) == v[1] && Machine64().effect(s, v, m) == m
    {
      Machine64At(s, v, m);
      Moves64(s, v, m);
    }
  }

  lemma Moves64(s: Sig, v: seq<int>, m: Memory)
    requires |v| == 3 && s.code == MOV
    ensures Value64(s, v) == v[1] && Effect64(s, v, m) == m
  {
  }

  lemma Opposite(s: Sig, v: seq<int>, m: Memory)
    requires IsCondBranch(s.code)
    ensures var s' := s.(code := Invert(s.code));
      Value64(s, v) == Value64(s', v) && Effect64(s, v, m) == Effect64(s', v, m)
  {
    hide Word, Stored, SignExtended, AluValue;
  }

  lemma OppositeTaken(code: Code, x: int, y: int)
    requires IsCondBranch(code)
    ensures Taken64(Invert(code), x, y) == !Taken64(code, x, y)
  {
    hide Fits64;
  }

  lemma Inverts64(op: Op)
    requires IsCondBranch(op.code)
    ensures Inverts(Machine64(), op)
  {
    hide Machine64, Value64, Effect64, Taken64, Invert, IsCondBranch;
    var op' := op.(code := Invert(op.code));
    assert SigOf(op') == SigOf(op).(code := Invert(op.code));
    forall v: seq<int>, m: Memory
      ensures Machine64().value(SigOf(op), v, m) == Machine64().value(SigOf(op'), v, m)
      ensures Machine64().effect(SigOf(op), v, m) == Machine64().effect(SigOf(op'), v, m)
      ensures Machine64().taken(SigOf(op'), v, m) == !Machine64().taken(SigOf(op), v, m)
    {
      Machine64At(SigOf(op), v, m);
      Machine64At(SigOf(op'), v, m);
      Opposite(SigOf(op), v, m);
      OppositeTaken(op.code, Operand64(v, 1), Operand64(v, 2));
    }
  }

  /** Nothing but stores touches memory. */
  lemma OnlyAssigns64(op: Op)
    requires op.code !in {ST, STX, X86_STI, X86_STXI} && (op.t0 == TREG ==> !MayBranch(op.code))
    ensures OnlyAssigns(Machine64(), op)
  {
    hide Machine64, Stored, MayBranch;
    forall v: seq<int>, m: Memory
      ensures Machine64().effect(SigOf(op), v, m) == m
    {
      Machine64At(SigOf(op), v, m);
    }
  }
}
