/** Argument passing on AMD64: where a function looks for its arguments
    (`jit_prepare_arguments`, `jit_init_arg_params`) against where a call leaves them
    (`funcall_put_arg`, `emit_arguments`); System V AMD64 ABI, section 3.2.3. */
module Amd64Args {
  /** An integer or pointer, or a floating-point number. */
  datatype Kind = Gp | Fp

  const RAX: nat := 0
  const GP_ARG_REGS: seq<nat> := [7, 6, 2, 1, 8, 9]
  const FP_ARG_REGS: seq<nat> := [0, 1, 2, 3, 4, 5, 6, 7]
  const WORD: nat := 8

  function ArgRegs(kind: Kind): seq<nat> {
    match kind
    case Gp => GP_ARG_REGS
    case Fp => FP_ARG_REGS
  }

  datatype Location = InReg(id: nat) | OnStack(offset: nat)

  // ----- The convention -----

  /** How many of the first `n` arguments are of a kind. */
  function Earlier(kinds: seq<Kind>, n: nat, kind: Kind): nat
    requires n <= |kinds|
  {
    if n == 0 then 0 else Earlier(kinds, n - 1, kind) + if kinds[n - 1] == kind then 1 else 0
  }

  /** An argument goes on the stack when the registers of its kind have run out. */
  predicate Overflows(kinds: seq<Kind>, i: nat)
    requires i < |kinds|
  {
    Earlier(kinds, i, kinds[i]) >= |ArgRegs(kinds[i])|
  }

  /** How many of the first `n` arguments are on the stack. */
  function EarlierOnStack(kinds: seq<Kind>, n: nat): nat
    requires n <= |kinds|
  {
    if n == 0 then 0 else EarlierOnStack(kinds, n - 1) + if Overflows(kinds, n - 1) then 1 else 0
  }

  /** The place of an argument: the next register of its kind, or the next word above
      the return address and the saved frame pointer. */
  function Place(kinds: seq<Kind>, i: nat): Location
    requires i < |kinds|
  {
    if Overflows(kinds, i) then OnStack(2 * WORD + WORD * EarlierOnStack(kinds, i))
    else InReg(ArgRegs(kinds[i])[Earlier(kinds, i, kinds[i])])
  }

  function Excess(n: nat, limit: nat): nat {
    if n > limit then n - limit else 0
  }

  /** Both kinds together: the arguments beyond the registers are those on the stack. */
  lemma {:induction false} ExcessIsOnStack(kinds: seq<Kind>, n: nat)
    requires n <= |kinds|
    ensures EarlierOnStack(kinds, n)
            == Excess(Earlier(kinds, n, Gp), |GP_ARG_REGS|) + Excess(Earlier(kinds, n, Fp), |FP_ARG_REGS|)
  {
    if n > 0 {
      ExcessIsOnStack(kinds, n - 1);
    }
  }

  // ----- The called function -----

  datatype InpArg = InpArg(kind: Kind, gpPos: nat, fpPos: nat, location: Location)

  /** `jit_init_arg_params`. */
  method InitArgParams(args: array<InpArg>, p: nat)
    requires p < args.Length
    modifies args
    ensures forall k :: 0 <= k < args.Length && k != p ==> args[k] == old(args[k])
    ensures args[p].kind == old(args[p].kind) && args[p].gpPos == old(args[p].gpPos) && args[p].fpPos == old(args[p].fpPos)
    ensures args[p].location == LocationOf(args[p].kind, args[p].gpPos, args[p].fpPos)
  {
    var a := args[p];
    if a.kind != Fp {
      var pos := a.gpPos;
      if pos < |GP_ARG_REGS| {
        args[p] := a.(location := InReg(GP_ARG_REGS[pos]));
      } else {
        var stackPos := (pos - |GP_ARG_REGS|) + Excess(a.fpPos, |FP_ARG_REGS|);
        args[p] := a.(location := OnStack(16 + stackPos * 8));
      }
      return;
    }
    var pos := a.fpPos;
    if pos < |FP_ARG_REGS| {
      args[p] := a.(location := InReg(FP_ARG_REGS[pos]));
    } else {
      var stackPos := (pos - |FP_ARG_REGS|) + Excess(a.gpPos, |GP_ARG_REGS|);
      args[p] := a.(location := OnStack(16 + stackPos * 8));
    }
  }

  function LocationOf(kind: Kind, gpPos: nat, fpPos: nat): Location {
    var pos := if kind == Gp then gpPos else fpPos;
    if pos < |ArgRegs(kind)| then InReg(ArgRegs(kind)[pos])
    else OnStack(16 + 8 * (Excess(gpPos, |GP_ARG_REGS|) + Excess(fpPos, |FP_ARG_REGS|)))
  }

  lemma PlaceIsLocation(kinds: seq<Kind>, i: nat)
    requires i < |kinds|
    ensures LocationOf(kinds[i], Earlier(kinds, i, Gp), Earlier(kinds, i, Fp)) == Place(kinds, i)
  {
    ExcessIsOnStack(kinds, i);
  }

  /** The operations of one function, as far as its arguments are concerned. */
  datatype DeclOp = DeclArg(kind: Kind) | OtherOp

  function Declared(ops: seq<DeclOp>): seq<Kind> {
    if ops == [] then []
    else Declared(ops[..|ops| - 1]) + (match ops[|ops| - 1]
                                       case DeclArg(kind) => [kind]
                                       case OtherOp => [])
  }

  /** `jit_prepare_arguments`, from the PROLOG of a function on: every declared
      argument is looked for in its place. */
  method PrepareArguments(ops: seq<DeclOp>, args: array<InpArg>)
    requires |Declared(ops)| <= args.Length
    modifies args
    ensures forall i :: 0 <= i < |Declared(ops)| ==>
              args[i].kind == Declared(ops)[i] && args[i].location == Place(Declared(ops), i)
  {
    hide Place, LocationOf, Earlier, Declared;
    var gpArgPos, fpArgPos, argPos: nat := 0, 0, 0;
    ghost var kinds := Declared(ops);
    NothingYet(ops, kinds);
    for n := 0 to |ops|
      invariant argPos <= |kinds| && Declared(ops[..n]) == kinds[..argPos]
      invariant gpArgPos == Earlier(kinds, argPos, Gp) && fpArgPos == Earlier(kinds, argPos, Fp)
      invariant forall i :: 0 <= i < argPos ==> args[i].kind == kinds[i] && args[i].location == Place(kinds, i)
    {
      OneMoreDeclared(ops, n, argPos);
      if ops[n].DeclArg? {
        var kind := ops[n].kind;
        args[argPos] := InpArg(kind, gpArgPos, fpArgPos, args[argPos].location);
        if kind == Fp {
          fpArgPos := fpArgPos + 1;
        } else {
          gpArgPos := gpArgPos + 1;
        }
        InitArgParams(args, argPos);
        PlaceIsLocation(kinds, argPos);
        argPos := argPos + 1;
      }
    }
    assert ops[..|ops|] == ops;
  }

  lemma NothingYet(ops: seq<DeclOp>, kinds: seq<Kind>)
    ensures Declared(ops[..0]) == kinds[..0] && Earlier(kinds, 0, Gp) == Earlier(kinds, 0, Fp) == 0
  {
  }

  /** One operation more, whose argument, if it declares one, is the next. */
  lemma OneMoreDeclared(ops: seq<DeclOp>, n: nat, argPos: nat)
    requires n < |ops| && argPos <= |Declared(ops)| && Declared(ops[..n]) == Declared(ops)[..argPos]
    ensures ops[n].OtherOp? ==> Declared(ops[..n + 1]) == Declared(ops)[..argPos]
    ensures ops[n].DeclArg? ==>
      && argPos < |Declared(ops)| && Declared(ops[..n + 1]) == Declared(ops)[..argPos + 1] && Declared(ops)[argPos] == ops[n].kind
      && forall kind :: Earlier(Declared(ops), argPos + 1, kind)
                        == Earlier(Declared(ops), argPos, kind) + if kind == ops[n].kind then 1 else 0
  {
    assert ops[..n + 1][..n] == ops[..n];
    DeclaredPrefix(ops, n + 1);
  }

  /** The arguments declared by a prefix come first. */
  lemma {:induction false} DeclaredPrefix(ops: seq<DeclOp>, n: nat)
    requires n <= |ops|
    ensures Declared(ops[..n]) <= Declared(ops)
    decreases |ops|
  {
    if n < |ops| {
      var front := ops[..|ops| - 1];
      DeclaredPrefix(front, n);
      assert front[..n] == ops[..n];
    } else {
      assert ops[..n] == ops;
    }
  }

  // ----- The call: collecting the arguments -----

  datatype VReg = VReg(kind: Kind, id: int)

  datatype Source = Imm(value: int) | Var(reg: VReg)

  /** An argument of `PUTARG` or `FPUTARG`; `argPos` is its place among those of its kind,
      `single` says that a double is passed as a `float`. */
  datatype OutArg = OutArg(kind: Kind, argPos: nat, source: Source, single: bool)

  function KindsOf(args: seq<OutArg>): (r: seq<Kind>)
    ensures |r| == |args| && forall i :: 0 <= i < |args| ==> r[i] == args[i].kind
  {
    if args == [] then [] else KindsOf(args[..|args| - 1]) + [args[|args| - 1].kind]
  }

  /** An argument numbered by its kind, its register of that kind, only a double narrowed. */
  predicate NumberedAt(args: seq<OutArg>, i: nat)
    requires i < |args|
  {
    && args[i].argPos == Earlier(KindsOf(args), i, args[i].kind)
    && (args[i].source.Var? ==> args[i].source.reg.kind == args[i].kind)
    && (args[i].single ==> args[i].kind == Fp)
  }

  predicate Numbered(args: seq<OutArg>) {
    forall i :: 0 <= i < |args| ==> NumberedAt(args, i)
  }

  lemma {:induction false} EarlierExtends(kinds: seq<Kind>, more: seq<Kind>, n: nat, kind: Kind)
    requires n <= |kinds|
    ensures Earlier(kinds + more, n, kind) == Earlier(kinds, n, kind)
  {
    if n > 0 {
      EarlierExtends(kinds, more, n - 1, kind);
    }
  }

  lemma {:induction false} StackExtends(kinds: seq<Kind>, more: seq<Kind>, n: nat)
    requires n <= |kinds|
    ensures EarlierOnStack(kinds + more, n) == EarlierOnStack(kinds, n)
  {
    if n > 0 {
      StackExtends(kinds, more, n - 1);
      EarlierExtends(kinds, more, n - 1, kinds[n - 1]);
    }
  }

  /** `jit_prepared_args`. */
  class PreparedArgs {
    const count: nat
    var args: array<OutArg>
    var ready: nat
    var stackSize: nat
    var gpArgs: nat
    var fpArgs: nat

    ghost predicate Valid()
      reads this, args
    {
      && ready <= count == args.Length
      && Numbered(args[..ready])
      && gpArgs == Earlier(KindsOf(args[..ready]), ready, Gp)
      && fpArgs == Earlier(KindsOf(args[..ready]), ready, Fp)
      && stackSize == WORD * EarlierOnStack(KindsOf(args[..ready]), ready)
    }

    /** `funcall_prepare`. */
    constructor (count: nat)
      ensures Valid() && fresh(args) && this.count == count && ready == 0
    {
      this.count := count;
      args := new OutArg[count](_ => OutArg(Gp, 0, Imm(0), false));
      ready, stackSize, gpArgs, fpArgs := 0, 0, 0, 0;
    }

    /** `funcall_put_arg`. */
    method PutArg(source: Source)
      requires Valid() && ready < count && (source.Var? ==> source.reg.kind == Gp)
      modifies this`ready, this`stackSize, this`gpArgs, args
      ensures Valid() && ready == old(ready) + 1
      ensures args[..ready] == old(args[..ready]) + [OutArg(Gp, old(gpArgs), source, false)]
    {
      hide Numbered, Earlier, EarlierOnStack, KindsOf;
      args[ready] := OutArg(Gp, gpArgs, source, false);
      ghost var was := args[..ready];
      gpArgs := gpArgs + 1;
      ready := ready + 1;
      if gpArgs > |GP_ARG_REGS| {
        stackSize := stackSize + WORD;
      }
      assert args[..ready] == was + [OutArg(Gp, gpArgs - 1, source, false)];
      OneMore(was, OutArg(Gp, gpArgs - 1, source, false));
    }

    /** `funcall_fput_arg`. */
    method FputArg(source: Source, single: bool)
      requires Valid() && ready < count && (source.Var? ==> source.reg.kind == Fp)
      modifies this`ready, this`stackSize, this`fpArgs, args
      ensures Valid() && ready == old(ready) + 1
      ensures args[..ready] == old(args[..ready]) + [OutArg(Fp, old(fpArgs), source, single)]
    {
      hide Numbered, Earlier, EarlierOnStack, KindsOf;
      args[ready] := OutArg(Fp, fpArgs, source, single);
      ghost var was := args[..ready];
      fpArgs := fpArgs + 1;
      ready := ready + 1;
      if fpArgs > |FP_ARG_REGS| {
        stackSize := stackSize + WORD;
      }
      assert args[..ready] == was + [OutArg(Fp, fpArgs - 1, source, single)];
      OneMore(was, OutArg(Fp, fpArgs - 1, source, single));
    }
  }

  /** One more argument at the end. */
  lemma OneMore(args: seq<OutArg>, arg: OutArg)
    requires Numbered(args) && arg.argPos == Earlier(KindsOf(args), |args|, arg.kind)
    requires (arg.source.Var? ==> arg.source.reg.kind == arg.kind) && (arg.single ==> arg.kind == Fp)
    ensures var more := args + [arg];
            && Numbered(more)
            && (forall kind :: Earlier(KindsOf(more), |more|, kind)
                               == Earlier(KindsOf(args), |args|, kind) + if kind == arg.kind then 1 else 0)
            && EarlierOnStack(KindsOf(more), |more|)
               == EarlierOnStack(KindsOf(args), |args|) + if arg.argPos >= |ArgRegs(arg.kind)| then 1 else 0
  {
    var more := args + [arg];
    assert more[..|more| - 1] == args;
    assert KindsOf(more) == KindsOf(args) + [arg.kind];
    forall i, kind | 0 <= i <= |args|
      ensures Earlier(KindsOf(more), i, kind) == Earlier(KindsOf(args), i, kind)
    {
      EarlierExtends(KindsOf(args), [arg.kind], i, kind);
    }
    forall i | 0 <= i < |more|
      ensures NumberedAt(more, i)
    {
      assert i < |args| ==> NumberedAt(args, i);
    }
    StackExtends(KindsOf(args), [arg.kind], |args|);
  }
}
