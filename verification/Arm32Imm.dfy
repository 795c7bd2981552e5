/** ARM data-processing immediates: the encoder of `myjit/arm32-codegen.h` against
    the decoder of `disasm/arm32/arm32-dis.c` (section A5.2.4 of the ARMv7-A
    Architecture Reference Manual).  Rotation counts are taken modulo 32. */
module Arm32Imm {
  /** Both shifts of a rotation: `s` bits to the left beside `t` bits to the right. */
  function Joined(x: bv32, s: bv32, t: bv32): bv32
    requires s < 32 && t < 32
  {
    (x << s) | (x >> t)
  }

  function Rol(x: bv32, s: bv32): bv32
    requires s < 32
  {
    if s == 0 then x else Joined(x, s, 32 - s)
  }

  function Ror(x: bv32, s: bv32): bv32
    requires s < 32
  {
    if s == 0 then x else Joined(x, 32 - s, s)
  }

  lemma RorAfterRol(x: bv32, s: bv32)
    requires s < 32
    ensures Ror(Rol(x, s), s) == x
  {
    hide Joined;
    if s > 0 {
      JoinedBack(x, s, 32 - s);
    }
  }

  function Left(x: bv32, s: bv32): bv32
    requires s < 32
  {
    x << s
  }

  function Right(x: bv32, s: bv32): bv32
    requires s < 32
  {
    x >> s
  }

  /** Rotating back. */
  lemma JoinedBack(x: bv32, s: bv32, t: bv32)
    requires 0 < s < 32 && t == 32 - s
    ensures Joined(Joined(x, s, t), t, s) == x
  {
    hide Left, Right, Joined;
    var l, r := Left(x, s), Right(x, t);
    JoinedIs(x, s, t);
    JoinedIs(l | r, t, s);
    LeftOverOr(l, r, t);
    RightOverOr(l, r, s);
    ShiftedOut(x, s, t);
    HalvesMeet(x, s, t);
    OrZero(Left(r, t), Right(l, s));
  }

  lemma JoinedIs(x: bv32, s: bv32, t: bv32)
    requires s < 32 && t < 32
    ensures Joined(x, s, t) == Left(x, s) | Right(x, t)
  {
  }

  lemma OrZero(a: bv32, b: bv32)
    ensures (0 | a) | (b | 0) == a | b
  {
  }

  lemma LeftOverOr(a: bv32, b: bv32, t: bv32)
    requires t < 32
    ensures Left(a | b, t) == Left(a, t) | Left(b, t)
  {
  }

  lemma RightOverOr(a: bv32, b: bv32, t: bv32)
    requires t < 32
    ensures Right(a | b, t) == Right(a, t) | Right(b, t)
  {
  }

  lemma ShiftedOut(x: bv32, s: bv32, t: bv32)
    requires 0 < s < 32 && t == 32 - s
    ensures Left(Left(x, s), t) == 0 && Right(Right(x, t), s) == 0
  {
  }

  lemma HalvesMeet(x: bv32, s: bv32, t: bv32)
    requires 0 < s < 32 && t == 32 - s
    ensures Left(Right(x, t), t) | Right(Left(x, s), s) == x
  {
  }

  lemma RolAfterRor(x: bv32, s: bv32)
    requires s < 32
    ensures Rol(Ror(x, s), s) == x
  {
    hide Joined;
    if s > 0 {
      JoinedBack(x, 32 - s, s);
    }
  }

  lemma ShiftsOn(x: bv32, s: bv32)
    requires 0 < s < 30
    ensures (((x << s) | (x >> (32 - s))) << 2) | (((x << s) | (x >> (32 - s))) >> 30)
            == (x << (s + 2)) | (x >> (30 - s))
  {
  }

  lemma JoinedOn(x: bv32, s: bv32)
    requires 0 < s < 30
    ensures Joined(Joined(x, s, 32 - s), 2, 30) == Joined(x, s + 2, 30 - s)
  {
    ShiftsOn(x, s);
  }

  /** Rotating on by two bits. */
  lemma RolOn(x: bv32, s: bv32)
    requires s < 30
    ensures Rol(Rol(x, s), 2) == Rol(x, s + 2)
  {
    hide Joined;
    if s > 0 {
      JoinedOn(x, s);
    }
  }

  predicate IsImm8(x: bv32) {
    x & 0xffff_ff00 == 0
  }

  datatype Rotation = NoRotation | Rotate(count: bv32)

  /** The least even rotation to the left, from `from` on, that leaves eight bits. */
  function RotationFrom(x: bv32, from: bv32): (r: Rotation)
    requires from <= 32 && from & 1 == 0
    ensures r.Rotate? ==> from <= r.count < 32 && r.count & 1 == 0 && IsImm8(Rol(x, r.count))
    ensures r.NoRotation? ==> forall s: bv32 :: from <= s < 32 && s & 1 == 0 ==> !IsImm8(Rol(x, s))
    decreases 32 - from
  {
    if from == 32 then NoRotation
    else if IsImm8(Rol(x, from)) then Rotate(from)
    else RotationFrom(x, from + 2)
  }

  /** `arm32_imm_rotate`; -1 is NoRotation. */
  method ImmRotate(x: bv32) returns (r: Rotation)
    ensures r == RotationFrom(x, 0)
  {
    hide Joined, IsImm8;
    if IsImm8(x) {
      return Rotate(0);
    }
    var y, i: bv32 := x, 2;
    while i < 32
      invariant 2 <= i <= 32 && i & 1 == 0 && y == Rol(x, i - 2)
      invariant RotationFrom(x, 0) == RotationFrom(x, i)
      decreases 32 - i
    {
      RolOn(x, i - 2);
      y := Rol(y, 2);
      if IsImm8(y) {
        return Rotate(i);
      }
      i := i + 2;
    }
    return NoRotation;
  }

  // ----- The operand field of a data operation -----

  datatype Operand = Aborted | Operand(bits: bv32)

  function PackImm(v: bv32, r: bv32): bv32 {
    ((r / 2) << 8) | (v & 0xff)
  }

  /** `arm32_encode_imm`; `abort()` is Aborted. */
  function EncodeImm(x: bv32): Operand {
    match RotationFrom(x, 0)
    case NoRotation => Aborted
    case Rotate(r) => Operand(PackImm(Rol(x, r), r))
  }

  /** `B` of the decoder: `length` bits of `x` from bit `index` on. */
  function Field(x: bv32, index: bv32, length: bv32): bv32
    requires index < 32 && length < 32
  {
    (x >> index) & (((1 as bv32) << length) - 1)
  }

  function DoubledRotation(f: bv32): (s: bv32)
    ensures s < 32 && s & 1 == 0
  {
    Field(f, 8, 4) * 2
  }

  /** `IMM` of the decoder. */
  function DecodeImm(f: bv32): bv32 {
    Ror(Field(f, 0, 8), DoubledRotation(f))
  }

  lemma PackedFields(v: bv32, r: bv32)
    requires IsImm8(v) && r < 32 && r & 1 == 0
    ensures var f := PackImm(v, r); f < 0x1000 && Field(f, 0, 8) == v && DoubledRotation(f) == r
  {
  }

  lemma FieldIsImm8(f: bv32)
    ensures IsImm8(Field(f, 0, 8))
  {
  }

  /** Encoding succeeds exactly on the values the decoder can produce, and then
      decoding gives the value back. */
  lemma ImmRoundTrip(x: bv32)
    ensures match EncodeImm(x)
            case Operand(f) => f < 0x1000 && DecodeImm(f) == x
            case Aborted => forall f: bv32 :: DecodeImm(f) != x
  {
    hide IsImm8, Rol, Ror, Field, PackImm, DoubledRotation;
    match RotationFrom(x, 0)
    case Rotate(r) =>
      PackedFields(Rol(x, r), r);
      RorAfterRol(x, r);
    case NoRotation =>
      forall f: bv32
        ensures DecodeImm(f) != x
      {
        var s := DoubledRotation(f);
        RolAfterRor(Field(f, 0, 8), s);
        FieldIsImm8(f);
      }
  }

  /** No rotation is found exactly when no eight-bit value under an even rotation is `x`. */
  lemma RotationIsExact(x: bv32)
    ensures RotationFrom(x, 0).NoRotation?
            <==> forall v: bv32, s: bv32 :: IsImm8(v) && s < 32 && s & 1 == 0 ==> Ror(v, s) != x
  {
    hide IsImm8, Rol, Ror;
    match RotationFrom(x, 0)
    case Rotate(r) =>
      RorAfterRol(x, r);
      assert Ror(Rol(x, r), r) == x;
    case NoRotation =>
      forall v: bv32, s: bv32 | IsImm8(v) && s < 32 && s & 1 == 0
        ensures Ror(v, s) != x
      {
        RolAfterRor(v, s);
      }
  }

  // ----- Instruction words -----

  /** `arm32_encode_dataop` with an immediate operand. */
  function DataOpImm(cond: bv32, opcode: bv32, s: bv32, rd: bv32, rn: bv32, op2: bv32): bv32 {
    (cond << 28) | (1 << 25) | (opcode << 21) | (s << 20) | (rn << 16) | (rd << 12) | (op2 & 0xfff)
  }

  /** `arm32_cond_movw_reg_imm16` (tag 0x30) and `arm32_cond_movt_reg_imm16` (tag 0x34). */
  function Mov16(cond: bv32, tag: bv32, rd: bv32, val: bv32): bv32 {
    (cond << 28) | (tag << 20) | (rd << 12) | ((val & 0xf000) << 4) | (val & 0xfff)
  }

  datatype Insn =
    | MovW(cond: bv32, rd: bv32, imm: bv32)
    | MovT(cond: bv32, rd: bv32, imm: bv32)
    | DataImm(cond: bv32, opcode: bv32, s: bv32, rd: bv32, rn: bv32, imm: bv32)
    | Other

  /** The tests of `decode` up to the data operations with an immediate; every
      instruction that is not one of those named is Other. */
  function Decode(w: bv32): Insn {
    if Field(w, 20, 8) == 0x30 then MovW(Field(w, 28, 4), Field(w, 12, 4), Mov16Value(w))
    else if Field(w, 20, 8) == 0x71 || Field(w, 20, 8) == 0x73 || Field(w, 20, 8) == 0x75 then Other
    else if Field(w, 16, 12) == 0x92d || Field(w, 16, 12) == 0x8bd then Other
    else if Field(w, 25, 3) == 0 && Field(w, 7, 1) != 0 && Field(w, 4, 1) != 0 then Other
    else if Field(w, 20, 8) == 0x34 then MovT(Field(w, 28, 4), Field(w, 12, 4), Mov16Value(w))
    else if Field(w, 25, 3) == 1 then
      DataImm(Field(w, 28, 4), Field(w, 21, 4), Field(w, 20, 1), Field(w, 12, 4), Field(w, 16, 4),
              DecodeImm(Field(w, 0, 12)))
    else Other
  }

  function Mov16Value(w: bv32): bv32 {
    (Field(w, 16, 4) << 12) | Field(w, 0, 12)
  }

  /** A TST or CMP that leaves the flags alone has the code of MOVW or MOVT. */
  predicate TakenForMov16(opcode: bv32, s: bv32) {
    s == 0 && (opcode == 8 || opcode == 10)
  }

  /** The fields of a word that the decoder looks at, shifts and masks written out. */
  lemma FieldsOf(w: bv32)
    ensures Field(w, 28, 4) == (w >> 28) & 0xf && Field(w, 25, 3) == (w >> 25) & 7 && Field(w, 21, 4) == (w >> 21) & 0xf
    ensures Field(w, 20, 1) == (w >> 20) & 1 && Field(w, 16, 4) == (w >> 16) & 0xf && Field(w, 12, 4) == (w >> 12) & 0xf
    ensures Field(w, 0, 12) == w & 0xfff && Field(w, 20, 8) == (w >> 20) & 0xff && Field(w, 16, 12) == (w >> 16) & 0xfff
  {
  }

  lemma DataOpBits(cond: bv32, opcode: bv32, s: bv32, rd: bv32, rn: bv32, op2: bv32, w: bv32)
    requires cond < 16 && opcode < 16 && s < 2 && rd < 16 && rn < 16 && op2 < 0x1000
    requires w == (cond << 28) | (1 << 25) | (opcode << 21) | (s << 20) | (rn << 16) | (rd << 12) | (op2 & 0xfff)
    ensures (w >> 28) & 0xf == cond && (w >> 25) & 7 == 1 && (w >> 21) & 0xf == opcode && (w >> 20) & 1 == s
    ensures (w >> 16) & 0xf == rn && (w >> 12) & 0xf == rd && w & 0xfff == op2
    ensures (w >> 20) & 0xff == 0x20 | (opcode << 1) | s && (w >> 16) & 0xfff == 0x200 | (opcode << 5) | (s << 4) | rn
  {
  }

  lemma DataOpFields(cond: bv32, opcode: bv32, s: bv32, rd: bv32, rn: bv32, op2: bv32)
    requires cond < 16 && opcode < 16 && s < 2 && rd < 16 && rn < 16 && op2 < 0x1000
    ensures var w := DataOpImm(cond, opcode, s, rd, rn, op2);
            && Field(w, 28, 4) == cond && Field(w, 25, 3) == 1 && Field(w, 21, 4) == opcode && Field(w, 20, 1) == s
            && Field(w, 16, 4) == rn && Field(w, 12, 4) == rd && Field(w, 0, 12) == op2
            && Field(w, 20, 8) == 0x20 | (opcode << 1) | s
            && Field(w, 16, 12) == 0x200 | (opcode << 5) | (s << 4) | rn
  {
    hide Field;
    var w := DataOpImm(cond, opcode, s, rd, rn, op2);
    FieldsOf(w);
    DataOpBits(cond, opcode, s, rd, rn, op2, w);
  }

  lemma NotOtherwise(opcode: bv32, s: bv32, rn: bv32)
    requires opcode < 16 && s < 2 && rn < 16
    ensures var b := 0x20 | (opcode << 1) | s;
            && b != 0x71 && b != 0x73 && b != 0x75
            && (b == 0x30 || b == 0x34 <==> TakenForMov16(opcode, s))
    ensures var b := 0x200 | (opcode << 5) | (s << 4) | rn; b != 0x92d && b != 0x8bd
  {
  }

  /** A data operation with an encodable immediate decodes to itself, unless it is
      a TST or CMP without flags; then it never does. */
  lemma DataOpRoundTrip(cond: bv32, opcode: bv32, s: bv32, rd: bv32, rn: bv32, x: bv32)
    requires cond < 16 && opcode < 16 && s < 2 && rd < 16 && rn < 16 && EncodeImm(x).Operand?
    ensures Decode(DataOpImm(cond, opcode, s, rd, rn, EncodeImm(x).bits)) == DataImm(cond, opcode, s, rd, rn, x)
            <==> !TakenForMov16(opcode, s)
  {
    hide EncodeImm, DecodeImm, Field, Mov16Value, DataOpImm, TakenForMov16;
    ImmRoundTrip(x);
    DataOpFields(cond, opcode, s, rd, rn, EncodeImm(x).bits);
    NotOtherwise(opcode, s, rn);
  }

  lemma Mov16Bits(cond: bv32, tag: bv32, rd: bv32, val: bv32, w: bv32)
    requires cond < 16 && rd < 16 && val < 0x10000 && (tag == 0x30 || tag == 0x34)
    requires w == (cond << 28) | (tag << 20) | (rd << 12) | ((val & 0xf000) << 4) | (val & 0xfff)
    ensures (w >> 28) & 0xf == cond && (w >> 20) & 0xff == tag && (w >> 12) & 0xf == rd
    ensures (((w >> 16) & 0xf) << 12) | (w & 0xfff) == val
    ensures (w >> 16) & 0xfff != 0x92d && (w >> 16) & 0xfff != 0x8bd && (w >> 25) & 7 == 1
  {
  }

  lemma Mov16Fields(cond: bv32, tag: bv32, rd: bv32, val: bv32)
    requires cond < 16 && rd < 16 && val < 0x10000 && (tag == 0x30 || tag == 0x34)
    ensures var w := Mov16(cond, tag, rd, val);
            && Field(w, 28, 4) == cond && Field(w, 20, 8) == tag && Field(w, 12, 4) == rd && Mov16Value(w) == val
            && Field(w, 16, 12) != 0x92d && Field(w, 16, 12) != 0x8bd && Field(w, 25, 3) == 1
  {
    hide Field;
    var w := Mov16(cond, tag, rd, val);
    FieldsOf(w);
    Mov16Bits(cond, tag, rd, val, w);
  }

  lemma Mov16RoundTrip(cond: bv32, rd: bv32, val: bv32)
    requires cond < 16 && rd < 16 && val < 0x10000
    ensures Decode(Mov16(cond, 0x30, rd, val)) == MovW(cond, rd, val)
    ensures Decode(Mov16(cond, 0x34, rd, val)) == MovT(cond, rd, val)
  {
    hide DecodeImm, Field, Mov16Value, Mov16;
    Mov16Fields(cond, 0x30, rd, val);
    Mov16Fields(cond, 0x34, rd, val);
  }

  // ----- Loading a constant -----

  datatype Reg = Reg(id: bv32)

  type Regs = map<Reg, bv32>

  datatype Outcome = Stuck | Ran(regs: Regs)

  const OP_MOV: bv32 := 0xd
  const OP_MVN: bv32 := 0xf

  /** The register after its upper half was replaced. */
  function WithTop(was: bv32, top: bv32): bv32 {
    (was & 0xffff) | (top << 16)
  }

  /** The effect of an instruction whose condition holds; only the four that load
      constants have one. */
  function Execute(i: Insn, regs: Regs): Outcome {
    match i
    case MovW(_, rd, imm) => Ran(regs[Reg(rd) := imm])
    case MovT(_, rd, imm) => if Reg(rd) in regs then Ran(regs[Reg(rd) := WithTop(regs[Reg(rd)], imm)]) else Stuck
    case DataImm(_, opcode, _, rd, _, imm) =>
      if opcode == OP_MOV then Ran(regs[Reg(rd) := imm])
      else if opcode == OP_MVN then Ran(regs[Reg(rd) := !imm])
      else Stuck
    case Other => Stuck
  }

  function Run(words: seq<bv32>, regs: Regs): Outcome {
    if words == [] then Ran(regs)
    else match Execute(Decode(words[0]), regs)
         case Stuck => Stuck
         case Ran(next) => Run(words[1..], next)
  }

  /** The condition an instruction runs under. */
  predicate Under(w: bv32, cond: bv32) {
    !Decode(w).Other? && Decode(w).cond == cond
  }

  lemma Halves(x: bv32)
    ensures x & 0xffff < 0x10000 && (x >> 16) & 0xffff < 0x10000
    ensures WithTop(x & 0xffff, (x >> 16) & 0xffff) == x
  {
  }

  lemma RunOne(w: bv32, regs: Regs)
    ensures Run([w], regs) == Execute(Decode(w), regs)
  {
    hide Execute, Decode;
    assert [w][1..] == [];
  }

  lemma RunTwo(w: bv32, v: bv32, regs: Regs)
    requires Execute(Decode(w), regs).Ran?
    ensures Run([w, v], regs) == Execute(Decode(v), Execute(Decode(w), regs).regs)
  {
    hide Execute, Decode;
    assert [w, v][1..] == [v];
    RunOne(v, Execute(Decode(w), regs).regs);
  }

  lemma MovTOver(cond: bv32, rd: bv32, hi: bv32, regs: Regs, lo: bv32, imm: bv32)
    requires Reg(rd) in regs && regs[Reg(rd)] == lo && WithTop(lo, hi) == imm
    ensures Execute(MovT(cond, rd, hi), regs) == Ran(regs[Reg(rd) := imm])
  {
  }

  lemma PairRuns(cond: bv32, rd: bv32, imm: bv32, regs: Regs)
    requires cond < 16 && rd < 16
    ensures var words := [Mov16(cond, 0x30, rd, imm & 0xffff), Mov16(cond, 0x34, rd, (imm >> 16) & 0xffff)];
            Run(words, regs) == Ran(regs[Reg(rd) := imm])
  {
    hide Decode, Mov16, Run, WithTop;
    var lo, hi := imm & 0xffff, (imm >> 16) & 0xffff;
    Halves(imm);
    Mov16RoundTrip(cond, rd, lo);
    Mov16RoundTrip(cond, rd, hi);
    var half := regs[Reg(rd) := lo];
    RunTwo(Mov16(cond, 0x30, rd, lo), Mov16(cond, 0x34, rd, hi), regs);
    MovTOver(cond, rd, hi, half, lo, imm);
    assert half[Reg(rd) := imm] == regs[Reg(rd) := imm];
  }

  /** `arm32_cond_mov_reg_imm32`: the words loaded one after the other put `imm`
      into `rd` and leave every other register alone, whatever `imm` is. */
  method EmitMovImm32(cond: bv32, rd: bv32, imm: bv32) returns (words: seq<bv32>)
    requires cond < 16 && rd < 16
    ensures forall regs :: Run(words, regs) == Ran(regs[Reg(rd) := imm])
    ensures forall w :: w in words ==> Under(w, cond)
    ensures |words| == if EncodeImm(imm).Operand? || EncodeImm(!imm).Operand? then 1 else 2
  {
    hide Decode, Mov16, DataOpImm, RotationFrom, PackImm, Run, Rol;
    var rotation := ImmRotate(imm);
    var inverted := ImmRotate(!imm);
    if rotation.Rotate? {
      words := [DataOpImm(cond, OP_MOV, 0, rd, 0, EncodeImm(imm).bits)];
      DataOpRoundTrip(cond, OP_MOV, 0, rd, 0, imm);
      forall regs: Regs ensures Run(words, regs) == Ran(regs[Reg(rd) := imm]) { RunOne(words[0], regs); }
    } else if inverted.Rotate? {
      words := [DataOpImm(cond, OP_MVN, 0, rd, 0, EncodeImm(!imm).bits)];
      DataOpRoundTrip(cond, OP_MVN, 0, rd, 0, !imm);
      forall regs: Regs ensures Run(words, regs) == Ran(regs[Reg(rd) := imm]) { RunOne(words[0], regs); }
    } else {
      words := [Mov16(cond, 0x30, rd, imm & 0xffff), Mov16(cond, 0x34, rd, (imm >> 16) & 0xffff)];
      Halves(imm);
      Mov16RoundTrip(cond, rd, imm & 0xffff);
      Mov16RoundTrip(cond, rd, (imm >> 16) & 0xffff);
      forall regs: Regs ensures Run(words, regs) == Ran(regs[Reg(rd) := imm]) { PairRuns(cond, rd, imm, regs); }
    }
  }
}
