/** Concrete programs the rewriting passes change the meaning of: inputs on which the
    conditions of StoreFold.FoldExact and Fusion.JoinIsExact do not hold. */
module Findings {
  import opened Ops
  import opened Machine
  import opened StoreFold
  import opened Fusion
  import Bits
  import Merging

  function Reg(id: nat): int {
    MkReg(INT, 0, id)
  }

  function MoveConst(r: int, c: int): Op {
    Op(MOV, ImmForm, false, TREG, IMM, NO, r, c, 0, 8, None, 0)
  }

  function StoreAt(address: int, r: int): Op {
    Op(ST, RegForm, false, REG, REG, NO, address, r, 0, 1, None, 0)
  }

  function Alu(code: Code, mode: Mode, r: int, x: int, y: int): Op {
    Op(code, mode, false, TREG, REG, if mode == ImmForm then IMM else REG, r, x, y, 8, None, 0)
  }

  /** A constant stored at the address it is itself: the folded store goes to the
      address the register held before. */
  lemma StoreToItself(env: Env<int, Memory>, g: int -> int, m: Memory)
    requires StoresBytes(env) && g(Reg(1)) == 100
    ensures var a, b := MoveConst(Reg(1), 7), StoreAt(Reg(1), Reg(1));
      && Folds(a, b, {})
      && env.effect(SigOf(b), VirtVals(env, b, Merging.After(env, a, g, m)), m)(100) == m(100)
      && env.effect(SigOf(Folded(a, b)), VirtVals(env, Folded(a, b), g), m)(100) == 7
  {
    hide Folds, Folded, VirtVals, StoresBytes, Merging.After, SigOf;
    StoreFolds();
    StoredAtConstant(env, g, m);
    StoredAtRegister(env, g, m);
  }

  lemma StoreFolds()
    ensures Folds(MoveConst(Reg(1), 7), StoreAt(Reg(1), Reg(1)), {})
  {
  }

  lemma StoredAtConstant(env: Env<int, Memory>, g: int -> int, m: Memory)
    requires StoresBytes(env)
    ensures var a, b := MoveConst(Reg(1), 7), StoreAt(Reg(1), Reg(1));
      env.effect(SigOf(b), VirtVals(env, b, Merging.After(env, a, g, m)), m)(100) == m(100)
  {
    var a, b := MoveConst(Reg(1), 7), StoreAt(Reg(1), Reg(1));
    var f := Merging.After(env, a, g, m);
    assert a.A(1) == 7 && b.A(0) == Reg(1);
    assert f(Reg(1)) == VirtVals(env, a, g)[1] == 7;
    assert VirtVals(env, b, f)[0] == 7;
  }

  lemma StoredAtRegister(env: Env<int, Memory>, g: int -> int, m: Memory)
    requires StoresBytes(env) && g(Reg(1)) == 100
    ensures var b2 := Folded(MoveConst(Reg(1), 7), StoreAt(Reg(1), Reg(1)));
      env.effect(SigOf(b2), VirtVals(env, b2, g), m)(100) == 7
  {
    var b2 := Folded(MoveConst(Reg(1), 7), StoreAt(Reg(1), Reg(1)));
    assert b2.A(0) == Reg(1) && b2.A(1) == 7;
    assert VirtVals(env, b2, g)[0] == 100 && VirtVals(env, b2, g)[1] == 7;
    assert SignExtended(7) == 7 && Byte(7, 0) == 7;
  }

  /** The next operation reads a register whose number is not zero, and nobody needs
      the result of the first. */
  lemma Reads(a: Op, b: Op)
    requires b.t1 == REG && b.a1 != 0
    ensures RelatedOp(a, b, {})
  {
    assert b.T(1) == REG && b.A(1) != 0;
  }

  /** An addition and a subtraction of one become an addition of one. */
  lemma SubtractionAdds(g: int -> int)
    requires g(Reg(2)) == 10 && g(Reg(3)) == 20
    ensures var a, b := Alu(ADD, RegForm, Reg(1), Reg(2), Reg(3)), Alu(SUB, ImmForm, Reg(4), Reg(1), 1);
      && Join(JoinAddImm, a, b, {}).Some?
      && InTurn(TWO_64, a, b, g) == 29 && ResultOf(TWO_64, Join(JoinAddImm, a, b, {}).value, g) == 31
  {
    var a, b := Alu(ADD, RegForm, Reg(1), Reg(2), Reg(3)), Alu(SUB, ImmForm, Reg(4), Reg(1), 1);
    hide InTurn, ResultOf, Join, JoinAddrAddi;
    SumJoins(a, b);
    SumLessOne(a, b, g);
  }

  lemma SumJoins(a: Op, b: Op)
    requires Is(a, ADD, RegForm) && Is(b, SUB, ImmForm) && b.t1 == REG && b.a1 != 0 && Is32Bit(b.a2)
    ensures Join(JoinAddImm, a, b, {}) == JoinAddrAddi(a, b) && JoinAddrAddi(a, b).Some?
  {
    hide RelatedOp;
    Reads(a, b);
  }

  lemma SumLessOne(a: Op, b: Op, g: int -> int)
    requires Is(a, ADD, RegForm) && AluShape(a) && Is(b, SUB, ImmForm) && AluShape(b) && b.a1 == a.a0 && b.a2 == 1
    requires JoinAddrAddi(a, b).Some? && g(a.a1) == 10 && g(a.a2) == 20
    ensures InTurn(TWO_64, a, b, g) == 29 && ResultOf(TWO_64, JoinAddrAddi(a, b).value, g) == 31
  {
    hide InTurn, ResultOf, JoinAddrAddi;
    AddrAddiValues(TWO_64, a, b, g);
  }

  /** An addition that does not read the product loses its operand to it. */
  lemma UnrelatedAdditionJoined(g: int -> int)
    requires g(Reg(2)) == 10 && g(Reg(4)) == 40
    ensures var a, b := Alu(MUL, ImmForm, Reg(1), Reg(2), 2), Alu(ADD, ImmForm, Reg(3), Reg(4), 5);
      && Join(JoinAddMul, a, b, {}) == Some(AddMulI(a, b))
      && InTurn(TWO_64, a, b, g) == 45 && ResultOf(TWO_64, AddMulI(a, b), g) == 25
  {
    hide ResultOf, RelatedOp, AddMulI, InTurn, Join;
    UnrelatedSum(Alu(MUL, ImmForm, Reg(1), Reg(2), 2), Alu(ADD, ImmForm, Reg(3), Reg(4), 5), g);
  }

  lemma UnrelatedSum(a: Op, b: Op, g: int -> int)
    requires Is(a, MUL, ImmForm) && a.a2 == 2 && g(a.a1) == 10
    requires Is(b, ADD, ImmForm) && AluShape(b) && b.a1 != 0 && b.a1 != a.a0 && b.a2 == 5 && g(b.a1) == 40
    ensures Join(JoinAddMul, a, b, {}) == Some(AddMulI(a, b))
    ensures InTurn(TWO_64, a, b, g) == 45 && ResultOf(TWO_64, AddMulI(a, b), g) == 25
  {
    hide ResultOf, RelatedOp, AddMulI, InTurn, Join, Scaled;
    ProductJoins(a, b);
    AddAlone(TWO_64, a, b, g);
    AddMulIValue(TWO_64, a, b, g);
    TwiceTen(a, g);
  }

  lemma ProductJoins(a: Op, b: Op)
    requires Is(a, MUL, ImmForm) && a.a2 == 2 && Is(b, ADD, ImmForm) && b.t1 == REG && b.a1 != 0 && Is32Bit(b.a2)
    ensures SuitableMul(a) && Join(JoinAddMul, a, b, {}) == Some(AddMulI(a, b))
  {
    hide RelatedOp, AddMulI;
    Reads(a, b);
  }

  lemma TwiceTen(a: Op, g: int -> int)
    requires Is(a, MUL, ImmForm) && a.a2 == 2 && g(a.a1) == 10
    ensures Scaled(a, g) == 20
  {
    assert Bits.Pow2(1) == 2;
  }

  lemma AddAlone(p: nat, a: Op, b: Op, g: int -> int)
    requires WordSize(p) && Is(b, ADD, ImmForm) && AluShape(b) && b.a1 != a.a0
    ensures InTurn(p, a, b, g) == Word(p, g(b.a1) + b.a2)
  {
    hide ResultOf;
    AddIValue(p, b, Set(g, a.a0, ResultOf(p, a, g)));
  }

  /** A doubled displacement that no longer fits 32 bits is cut off. */
  lemma DoubledDisplacementCut(g: int -> int)
    requires g(Reg(2)) == 0
    ensures var a, b := Alu(ADD, ImmForm, Reg(1), Reg(2), 0x7fff_ffff), Alu(ADD, RegForm, Reg(3), Reg(1), Reg(1));
      && Join(JoinAddImm, a, b, {}).Some?
      && InTurn(TWO_64, a, b, g) == 0xffff_fffe && ResultOf(TWO_64, Join(JoinAddImm, a, b, {}).value, g) == TWO_64 - 2
  {
    var a, b := Alu(ADD, ImmForm, Reg(1), Reg(2), 0x7fff_ffff), Alu(ADD, RegForm, Reg(3), Reg(1), Reg(1));
    hide InTurn, ResultOf, Join, JoinAddiAddr, SignExtended, Word;
    DisplacedJoins(a, b);
    AddiAddrValues(TWO_64, a, b, g);
    DisplacedTwice(a, b);
    CutOff();
  }

  lemma DisplacedJoins(a: Op, b: Op)
    requires Is(a, ADD, ImmForm) && Is(b, ADD, RegForm) && b.t1 == REG && b.a1 != 0 && Is32Bit(a.a2)
    ensures Join(JoinAddImm, a, b, {}) == JoinAddiAddr(a, b) && JoinAddiAddr(a, b).Some?
  {
    hide RelatedOp;
    Reads(a, b);
  }

  /** Both operands are the sum, so the displacement counts twice. */
  lemma DisplacedTwice(a: Op, b: Op)
    requires Is(a, ADD, ImmForm) && JoinAddiAddr(a, b).Some? && b.a1 == a.a0 && b.a2 == a.a0
    ensures JoinAddiAddr(a, b).value.a1 == JoinAddiAddr(a, b).value.a2 == a.a1 && Displacement(a, b) == 2 * a.a2
  {
  }

  lemma CutOff()
    ensures SignExtended(0xffff_fffe) == -2 && Word(TWO_64, -2) == TWO_64 - 2 && Word(TWO_64, 0xffff_fffe) == 0xffff_fffe
  {
  }
}
