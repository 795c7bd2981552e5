/** The operations of the intermediate code: `struct jit_op` as a value. */
module Ops {
  datatype Option<+T> = None | Some(value: T)

  /** Kind of one operand (the two-bit fields of `spec`). */
  datatype ArgType = NO | REG | IMM | TREG

  /** Form of an operation (the low bits of `code`). */
  datatype Mode = Bare | RegForm | ImmForm

  datatype Code =
    | NOP | CODESTART | FULL_SPILL
    | PROLOG | LABEL | PATCH | DECL_ARG | ALLOCA
    | MOV | LD | LDX | ST | STX
    | JMP | PREPARE | PUTARG | FPUTARG | CALL | RET | FRET | GETARG | RETVAL | FRETVAL
    | ADD | ADDC | ADDX | SUB | SUBC | SUBX | RSB | NEG | MUL | HMUL | DIV | MOD
    | OR | XOR | AND | LSH | RSH | NOT
    | LT | LE | GT | GE | EQ | NE
    | BLT | BLE | BGT | BGE | BEQ | BNE | BMS | BMC | BOADD | BOSUB | BNOADD | BNOSUB
    | FBLT | FBLE | FBGT | FBGE | FBEQ | FBNE
    | DATA_BYTE | DATA_BYTES | DATA_REF_CODE | DATA_REF_DATA | CODE_ALIGN | REF_CODE | REF_DATA
    | MSG | FMSG | COMMENT | MARK | TRACE | FORCE_ASSOC
    | X86_STI | X86_STXI | X86_ADDMUL | X86_ADDIMM

  /** `t0..t2` is the operand specification, `a0..a2` the operands themselves:
      register numbers, immediates or, for a code reference, something only
      `jmp` gives meaning to.  `jmp` is the position `jmp_addr` points at, and
      `disp` the displacement ADDIMM keeps in `flt_imm`. */
  datatype Op = Op(code: Code, mode: Mode, unsigned: bool,
                   t0: ArgType, t1: ArgType, t2: ArgType,
                   a0: int, a1: int, a2: int,
                   size: int, jmp: Option<nat>, disp: int)
  {
    function T(i: int): ArgType {
      if i == 0 then t0 else if i == 1 then t1 else t2
    }

    function A(i: int): int {
      if i == 0 then a0 else if i == 1 then a1 else a2
    }

    /** Registers the operation reads, and those it assigns. */
    function Uses(): set<int> {
      set i | 0 <= i < 3 && T(i) == REG :: A(i)
    }

    function Defs(): set<int> {
      set i | 0 <= i < 3 && T(i) == TREG :: A(i)
    }

    predicate Mentions(r: int) {
      r in Uses() || r in Defs()
    }
  }

  // Register numbers: `jit_mkreg` with type, class and index.

  function MkReg(rtype: int, rclass: int, id: int): int {
    rtype + 2 * rclass + 16 * id
  }

  /** The second half of a register that spans two hardware registers. */
  function MkRegEx(rtype: int, rclass: int, id: int): int {
    MkReg(rtype, rclass, id) + 8
  }

  const INT := 0
  const FLOAT := 1
  const CLASS_IMM := 1
  const CLASS_ALIAS := 2
  const CLASS_ARG := 3

  function RegClass(r: int): int { r / 2 % 4 }

  const R_IMM := MkReg(INT, CLASS_IMM, 0)
  const R_FP := MkReg(INT, CLASS_ALIAS, 0)

  function ArgReg(id: int): int { MkReg(INT, CLASS_ARG, id) }

  function FloatArgReg(id: int): int { MkReg(FLOAT, CLASS_ARG, id) }

  /** One declared argument (`struct jit_inp_arg`). */
  datatype ArgInfo = ArgInfo(isFloat: bool, size: int, overflow: bool)

  /** The declared arguments in force from this operation on; a PROLOG points to its own. */
  function NextInfo(infos: map<int, seq<ArgInfo>>, op: Op, current: seq<ArgInfo>): seq<ArgInfo> {
    if op.code != PROLOG then current else if op.a1 in infos then infos[op.a1] else []
  }

  /** The declared arguments of the function operation i belongs to. */
  function DeclaredAt(ops: seq<Op>, infos: map<int, seq<ArgInfo>>, i: nat): seq<ArgInfo>
    requires i < |ops|
  {
    NextInfo(infos, ops[i], if i == 0 then [] else DeclaredAt(ops, infos, i - 1))
  }

  /** `is_cond_branch_op`, which lists neither BMS nor BMC. */
  predicate IsCondBranch(code: Code) {
    code in {BLT, BLE, BGT, BGE, BEQ, BNE, FBLT, FBLE, FBGT, FBGE, FBEQ, FBNE, BOADD, BOSUB, BNOADD, BNOSUB}
  }

  /** Operations that go to `jmp` or fall through. */
  predicate MayBranch(code: Code) {
    code in {BLT, BLE, BGT, BGE, BEQ, BNE, BMS, BMC, BOADD, BOSUB, BNOADD, BNOSUB, FBLT, FBLE, FBGT, FBGE, FBEQ, FBNE}
  }

  /** Operations only the rewriting passes make: a program cannot ask for them. */
  predicate MadeByPasses(code: Code) {
    code in {X86_STI, X86_STXI, X86_ADDMUL, X86_ADDIMM}
  }

  /** Operations that take the address of another one. */
  predicate IsRef(op: Op) {
    op.code == REF_CODE || op.code == DATA_REF_CODE
  }

  /** Operations a jump can lead to. */
  predicate IsLanding(code: Code) {
    code == LABEL || code == PATCH
  }
}
