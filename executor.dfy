/**
 * The opcode dispatch both versions of the VM share (myvmm.cpp:218-271,
 * myvmm.cc:110-164): `li`, `add`, `sub`, `addi`, `mul`, `and`, `or`, `ori`,
 * `xor`, `sll` and `srl` on a 32-entry `int32_t` register file.
 *
 * `DUMP_PROCESSOR_STATE` and `SNAPSHOT` are handled by each version's run
 * loop; to this dispatch they are mnemonics like any unknown one.
 */
module Executor {
  import opened Int32
  import opened Text
  import opened Registers

  type RegFile = s: seq<i32> | |s| == NumRegisters witness seq(32, _ => 0)

  /** The register file both versions start from, every register zero. */
  const ZeroRegs: RegFile := [0, 0, 0, 0, 0, 0, 0, 0, 0, 0, 0, 0, 0, 0, 0, 0,
                              0, 0, 0, 0, 0, 0, 0, 0, 0, 0, 0, 0, 0, 0, 0, 0]

  /** Why an instruction stops the program instead of completing. */
  datatype Fault =
    | Abort      // `std::stoi` threw; nothing catches it, so the process terminates
    | Undefined  // C++ undefined behaviour: a register index outside 0..31, a shift outside 0..31

  datatype Outcome = Next(regs: RegFile) | Fail(fault: Fault)

  /** The value a right-hand operand of `or` evaluates to. */
  datatype Operand = Value(v: i32) | Throws | Unbounded

  /**
   * What an operand token means to the dispatch: `reg_index` of it,
   * `std::stoi` of it, and whether it starts with `$`. Both readings are
   * free of side effects, so taking them once per token changes nothing.
   */
  datatype Arg = Arg(reg: int, lit: Option<i32>, dollar: bool)

  function Resolve(tok: string): (a: Arg)
    ensures a.reg >= -1
  {
    Arg(RegisterIndex(tok), Stoi(tok), tok != [] && tok[0] == '$')
  }


  /** The opcodes of the dispatch chain; `Other` is every mnemonic it skips. */
  datatype Op = Li | Add | Sub | Addi | Mul | And | Or | Ori | Xor | Sll | Srl | Other {
    /** Opcodes whose three operands are all registers. */
    predicate IsThreeReg() {
      this == Add || this == Sub || this == Mul || this == And || this == Xor
    }
    /** Opcodes whose last operand is a literal read by `std::stoi`. */
    predicate IsRegImm() {
      this == Addi || this == Ori || this == Sll || this == Srl
    }
    predicate IsShift() {
      this == Sll || this == Srl
    }
    /** The operand count the opcode's branch demands. */
    function Arity(): nat {
      if this == Li then 2 else 3
    }
  }

  /** The mnemonic comparisons of the dispatch chain. */
  function OpOf(m: string): Op {
    if m == "li" then Li
    else if m == "add" then Add
    else if m == "sub" then Sub
    else if m == "addi" then Addi
    else if m == "mul" then Mul
    else if m == "and" then And
    else if m == "or" then Or
    else if m == "ori" then Ori
    else if m == "xor" then Xor
    else if m == "sll" then Sll
    else if m == "srl" then Srl
    else Other
  }

  /** The mnemonic each opcode is written with. */
  function Mnemonic(op: Op): string
    requires op != Other
  {
    match op
    case Li => "li"
    case Add => "add"
    case Sub => "sub"
    case Addi => "addi"
    case Mul => "mul"
    case And => "and"
    case Or => "or"
    case Ori => "ori"
    case Xor => "xor"
    case Sll => "sll"
    case Srl => "srl"
  }

  /** Every opcode is reached by its own mnemonic, so no branch of the chain shadows another. */
  lemma OpOfMnemonic(op: Op)
    requires op != Other
    ensures OpOf(Mnemonic(op)) == op
  {
  }

  /** Every mnemonic but the eleven of the chain falls through it. */
  lemma OpOfOther(m: string)
    ensures OpOf(m) == Other <==>
      m !in {"li", "add", "sub", "addi", "mul", "and", "or", "ori", "xor", "sll", "srl"}
  {
  }

  /** The directives the run loops handle themselves are no opcode. */
  lemma DirectivesAreNoOpcode()
    ensures OpOf("DUMP_PROCESSOR_STATE") == Other && OpOf("SNAPSHOT") == Other
  {
  }

  /** The value an opcode stores, from its two source values. */
  function Apply(op: Op, a: i32, b: i32): i32
    requires op.IsThreeReg() || op.IsRegImm()
    requires op.IsShift() ==> 0 <= b < 32
  {
    match op
    case Add => AddWrap(a, b)
    case Addi => AddWrap(a, b)
    case Sub => SubWrap(a, b)
    case Mul => MulWrap(a, b)
    case And => Bitwise32(BitAnd, a, b)
    case Ori => Bitwise32(BitOr, a, b)
    case Xor => Bitwise32(BitXor, a, b)
    case Sll => ShiftLeft(a, b)
    case Srl => ShiftRightLogical(a, b)
  }

  /** `state.reg[rd] = v` for a destination already known to be positive. */
  function Write(regs: RegFile, rd: int, v: i32): (o: Outcome)
    requires rd > 0
    ensures o.Next? <==> rd < NumRegisters
    ensures o.Next? ==> o.regs == regs[rd := v]
    ensures o.Fail? ==> o.fault == Undefined
  {
    if rd < NumRegisters then Next(regs[rd := v]) else Fail(Undefined)
  }

  /**
   * The third operand of `or`: a register when it starts with `$`, read even
   * when `reg_index` gives -1 or a number past 31; a literal otherwise.
   */
  function OrOperand(regs: RegFile, x: Arg): Operand {
    if x.dollar then
      if 0 <= x.reg < NumRegisters then Value(regs[x.reg]) else Unbounded
    else
      match x.lit
      case Some(v) => Value(v)
      case None => Throws
  }

  /**
   * The third operand of `or` throws exactly for a literal `std::stoi`
   * rejects, and is an out-of-bounds read exactly for a `$` token whose
   * index is outside the register file.
   */
  lemma OrOperandCases(regs: RegFile, x: Arg)
    ensures OrOperand(regs, x).Throws? <==> !x.dollar && x.lit == None
    ensures OrOperand(regs, x).Unbounded? <==> x.dollar && !(0 <= x.reg < NumRegisters)
    ensures x.dollar && 0 <= x.reg < NumRegisters ==> OrOperand(regs, x) == Value(regs[x.reg])
  {
  }

  /** The frame every opcode respects: only the destination may change, never register 0. */
  predicate WritesAtMost(regs: RegFile, o: Outcome, rd: int) {
    o.Next? ==>
      && o.regs[0] == regs[0]
      && forall i :: 0 <= i < NumRegisters && i != rd ==> o.regs[i] == regs[i]
  }

  /** `li rd, imm`: the literal is parsed before the destination is checked. */
  function ExecuteLi(regs: RegFile, args: seq<Arg>): (o: Outcome)
    requires |args| == 2
    ensures WritesAtMost(regs, o, args[0].reg)
  {
    var rd := args[0].reg;
    match args[1].lit
    case None => Fail(Abort)
    case Some(v) => if rd > 0 then Write(regs, rd, v) else Next(regs)
  }

  /** `add`, `sub`, `mul`, `and`, `xor rd, rs, rt`. */
  function ExecuteThreeReg(regs: RegFile, op: Op, args: seq<Arg>): (o: Outcome)
    requires op.IsThreeReg() && |args| == 3
    ensures WritesAtMost(regs, o, args[0].reg)
  {
    var rd, rs, rt := args[0].reg, args[1].reg, args[2].reg;
    if rd > 0 && rs >= 0 && rt >= 0 then
      if rs < NumRegisters && rt < NumRegisters then Write(regs, rd, Apply(op, regs[rs], regs[rt]))
      else Fail(Undefined)
    else Next(regs)
  }

  /** `or rd, rs, x`: the third operand is evaluated before the guard. */
  function ExecuteOr(regs: RegFile, args: seq<Arg>): (o: Outcome)
    requires |args| == 3
    ensures WritesAtMost(regs, o, args[0].reg)
  {
    var rd, rs := args[0].reg, args[1].reg;
    match OrOperand(regs, args[2])
    case Throws => Fail(Abort)
    case Unbounded => Fail(Undefined)
    case Value(v) =>
      if rd > 0 && rs >= 0 then
        if rs < NumRegisters then Write(regs, rd, Bitwise32(BitOr, regs[rs], v)) else Fail(Undefined)
      else Next(regs)
  }

  /** `addi`, `ori`, `sll`, `srl rd, rs, imm`: the literal is parsed before the guard. */
  function ExecuteRegImm(regs: RegFile, op: Op, args: seq<Arg>): (o: Outcome)
    requires op.IsRegImm() && |args| == 3
    ensures WritesAtMost(regs, o, args[0].reg)
  {
    var rd, rs := args[0].reg, args[1].reg;
    match args[2].lit
    case None => Fail(Abort)
    case Some(imm) =>
      if rd > 0 && rs >= 0 then
        if rs >= NumRegisters || (op.IsShift() && !(0 <= imm < 32)) then Fail(Undefined)
        else Write(regs, rd, Apply(op, regs[rs], imm))
      else Next(regs)
  }

  /** One instruction of the dispatch chain, by opcode, on resolved operands. */
  function ExecuteOp(regs: RegFile, op: Op, args: seq<Arg>): (o: Outcome)
    ensures args != [] ==> WritesAtMost(regs, o, args[0].reg)
    ensures args == [] ==> o == Next(regs)
  {
    if |args| != op.Arity() then Next(regs)
    else
      match op
      case Li => ExecuteLi(regs, args)
      case Or => ExecuteOr(regs, args)
      case Add | Sub | Mul | And | Xor => ExecuteThreeReg(regs, op, args)
      case Addi | Ori | Sll | Srl => ExecuteRegImm(regs, op, args)
      case Other => Next(regs)
  }

  /**
   * One instruction on the register file: at most the register its first
   * operand names changes, and register 0 never does.
   */
  function Execute(regs: RegFile, m: string, tokens: seq<string>): (o: Outcome)
    ensures o.Next? ==> o.regs[0] == regs[0]
    ensures o.Next? ==> forall i :: 0 <= i < NumRegisters && o.regs[i] != regs[i] ==>
      tokens != [] && i == RegisterIndex(tokens[0])
  {
    ExecuteOp(regs, OpOf(m), Map(Resolve, tokens))
  }

  // ---------------------------------------------------------------------
  // What an instruction may and may not change
  //
  // The lemmas below are stated per opcode, on resolved operands; `Execute`
  // of a mnemonic `m` is `ExecuteOp` of `OpOf(m)`.

  /** Unknown mnemonics, and known ones with the wrong operand count, change nothing. */
  lemma UnknownOrWrongArityIsNoOp(regs: RegFile, m: string, tokens: seq<string>)
    requires OpOf(m) == Other || |tokens| != OpOf(m).Arity()
    ensures Execute(regs, m, tokens) == Next(regs)
  {
    var args := Map(Resolve, tokens);
    assert |args| == |tokens|;
    if |args| == OpOf(m).Arity() {
      assert OpOf(m) == Other;
    }
  }

  /** A destination that is `$zero` or no register is never written. */
  lemma NoWriteBelowOne(regs: RegFile, op: Op, args: seq<Arg>)
    requires args != [] && args[0].reg <= 0
    ensures ExecuteOp(regs, op, args).Next? ==> ExecuteOp(regs, op, args).regs == regs
  {
    var o := ExecuteOp(regs, op, args);
    if o.Next? {
      assert forall i :: 0 <= i < NumRegisters ==> o.regs[i] == regs[i];
    }
  }

  /**
   * A three-register instruction with a source that is no register is
   * skipped; an immediate one is skipped unless its literal aborts first, and
   * `or` unless its third operand aborts or reads out of bounds.
   */
  lemma MissingSourceIsNoOp(regs: RegFile, op: Op, args: seq<Arg>)
    requires |args| == 3 && op != Other && op != Li
    requires args[1].reg == -1 || (op.IsThreeReg() && args[2].reg == -1)
    ensures op.IsThreeReg() ==> ExecuteOp(regs, op, args) == Next(regs)
    ensures ExecuteOp(regs, op, args) in {Next(regs), Fail(Abort), Fail(Undefined)}
  {
  }

  // ---------------------------------------------------------------------
  // What each opcode stores

  /** `li` stores the literal, as `std::stoi` reads it. */
  lemma LoadImmediate(regs: RegFile, args: seq<Arg>, v: i32)
    requires |args| == 2 && 0 < args[0].reg < NumRegisters && args[1].lit == Some(v)
    ensures ExecuteOp(regs, Li, args) == Next(regs[args[0].reg := v])
  {
  }

  /** A literal `std::stoi` rejects aborts the program, whatever the destination. */
  lemma BadLiteralAborts(regs: RegFile, op: Op, args: seq<Arg>)
    requires (op == Li || op.IsRegImm()) && |args| == op.Arity()
    requires args[|args| - 1].lit == None
    ensures ExecuteOp(regs, op, args) == Fail(Abort)
  {
  }

  /** `add`, `sub`, `mul`, `and` and `xor` combine two registers. */
  lemma ThreeRegisterResult(regs: RegFile, op: Op, args: seq<Arg>)
    requires op.IsThreeReg() && |args| == 3 && 0 < args[0].reg < NumRegisters
    requires 0 <= args[1].reg < NumRegisters && 0 <= args[2].reg < NumRegisters
    ensures ExecuteOp(regs, op, args) ==
      Next(regs[args[0].reg := Apply(op, regs[args[1].reg], regs[args[2].reg])])
  {
  }

  /** `addi`, `ori`, `sll` and `srl` combine a register with a literal. */
  lemma ImmediateResult(regs: RegFile, op: Op, args: seq<Arg>, imm: i32)
    requires op.IsRegImm() && |args| == 3
    requires 0 < args[0].reg < NumRegisters && 0 <= args[1].reg < NumRegisters
    requires args[2].lit == Some(imm) && (op.IsShift() ==> 0 <= imm < 32)
    ensures ExecuteOp(regs, op, args) == Next(regs[args[0].reg := Apply(op, regs[args[1].reg], imm)])
  {
  }

  /** A shift by a literal outside 0..31 is undefined behaviour. */
  lemma ShiftOutOfRange(regs: RegFile, op: Op, args: seq<Arg>, imm: i32)
    requires op.IsShift() && |args| == 3 && 0 < args[0].reg && 0 <= args[1].reg
    requires args[2].lit == Some(imm) && !(0 <= imm < 32)
    ensures ExecuteOp(regs, op, args) == Fail(Undefined)
  {
  }

  /**
   * `or` takes a register when its third operand starts with `$` and a
   * literal otherwise; a `$` operand that names no register in 0..31 is an
   * out-of-bounds read.
   */
  lemma OrResult(regs: RegFile, args: seq<Arg>)
    requires |args| == 3 && 0 < args[0].reg < NumRegisters && 0 <= args[1].reg < NumRegisters
    ensures var o, rd, a, x := ExecuteOp(regs, Or, args), args[0].reg, regs[args[1].reg], args[2];
      && (x.dollar && 0 <= x.reg < NumRegisters ==> o == Next(regs[rd := Bitwise32(BitOr, a, regs[x.reg])]))
      && (x.dollar && !(0 <= x.reg < NumRegisters) ==> o == Fail(Undefined))
      && (!x.dollar && x.lit.Some? ==> o == Next(regs[rd := Bitwise32(BitOr, a, x.lit.value)]))
      && (!x.dollar && x.lit.None? ==> o == Fail(Abort))
  {
  }

  /** `or` reads the register its third operand names even when the write is dropped. */
  lemma OrReadsBeforeGuard(regs: RegFile, args: seq<Arg>)
    requires |args| == 3 && args[2].dollar && args[2].reg == -1
    ensures ExecuteOp(regs, Or, args) == Fail(Undefined)
  {
  }

  /** A `$`-numeral past 31 as destination is an out-of-bounds write. */
  lemma DestinationPastEnd(regs: RegFile, args: seq<Arg>, v: i32)
    requires |args| == 2 && args[0].reg >= NumRegisters && args[1].lit == Some(v)
    ensures ExecuteOp(regs, Li, args) == Fail(Undefined)
  {
  }

  // ---------------------------------------------------------------------
  // Consequences

  /** `srl` by at least one always stores a non-negative value. */
  lemma ShiftRightStoresNonNegative(regs: RegFile, args: seq<Arg>)
    requires |args| == 3 && 0 < args[0].reg < NumRegisters && 0 <= args[1].reg
    requires args[2].lit.Some? && args[2].lit.value >= 1
    ensures var o := ExecuteOp(regs, Srl, args);
      o.Next? ==> o.regs[args[0].reg] >= 0
  {
    var s := args[2].lit.value;
    var rs := args[1].reg;
    if rs < NumRegisters && s < 32 {
      ImmediateResult(regs, Srl, args, s);
      ShiftRightLogicalNonNegative(regs[rs], s);
    }
  }

  /** `ori rd, $zero, imm` loads the literal, the MIPS idiom for a constant. */
  lemma OriFromZeroLoads(regs: RegFile, args: seq<Arg>, imm: i32)
    requires |args| == 3 && 0 < args[0].reg < NumRegisters && args[1].reg == 0 && regs[0] == 0
    requires args[2].lit == Some(imm)
    ensures ExecuteOp(regs, Ori, args) == Next(regs[args[0].reg := imm])
  {
    OrZero(imm);
    ImmediateResult(regs, Ori, args, imm);
  }

  /** `xor rd, rs, rs` clears `rd`. */
  lemma XorSelfClears(regs: RegFile, args: seq<Arg>)
    requires |args| == 3 && 0 < args[0].reg < NumRegisters
    requires 0 <= args[1].reg < NumRegisters && args[2].reg == args[1].reg
    ensures ExecuteOp(regs, Xor, args) == Next(regs[args[0].reg := 0])
  {
    XorSelf(regs[args[1].reg]);
    ThreeRegisterResult(regs, Xor, args);
  }

  // ---------------------------------------------------------------------
  // The dispatch on the register array, as the loops of both versions run it

  /** The array after an instruction agrees with the outcome `o` of its specification. */
  ghost predicate Agrees(o: Outcome, fault: Option<Fault>, after: seq<i32>, before: seq<i32>) {
    && (o.Next? ==> fault == None && after == o.regs)
    && (o.Fail? ==> fault == Some(o.fault) && after == before)
  }

  /** `reg_index` and `std::stoi` of one operand token. */
  method ResolveToken(tok: string) returns (a: Arg)
    ensures a == Resolve(tok)
  {
    var r := RegIndex(tok);
    a := Arg(r, Stoi(tok), tok != [] && tok[0] == '$');
  }

  /**
   * Runs one instruction on `reg` in place. On a fault nothing has been
   * written: the literal is read, and every index checked, before the store.
   */
  method ExecuteInPlace(reg: array<i32>, m: string, tokens: seq<string>) returns (fault: Option<Fault>)
    requires reg.Length == NumRegisters
    modifies reg
    ensures Agrees(Execute(old(reg[..]), m, tokens), fault, reg[..], old(reg[..]))
  {
    var op := OpOf(m);
    if op == Other || |tokens| != op.Arity() {
      UnknownOrWrongArityIsNoOp(reg[..], m, tokens);
      return None;
    }
    var a0 := ResolveToken(tokens[0]);
    var a1 := ResolveToken(tokens[1]);
    if op == Li {
      MapPair(Resolve, tokens);
      fault := ExecuteOpInPlace(reg, op, [a0, a1]);
    } else {
      var a2 := ResolveToken(tokens[2]);
      MapTriple(Resolve, tokens);
      fault := ExecuteOpInPlace(reg, op, [a0, a1, a2]);
    }
  }

  /** One opcode with its operands resolved, on `reg` in place. */
  method ExecuteOpInPlace(reg: array<i32>, op: Op, args: seq<Arg>) returns (fault: Option<Fault>)
    requires reg.Length == NumRegisters && op != Other && |args| == op.Arity()
    modifies reg
    ensures Agrees(ExecuteOp(old(reg[..]), op, args), fault, reg[..], old(reg[..]))
  {
    match op {
      case Li => fault := LiInPlace(reg, args);
      case Or => fault := OrInPlace(reg, args);
      case Add | Sub | Mul | And | Xor => fault := ThreeRegInPlace(reg, op, args);
      case Addi | Ori | Sll | Srl => fault := RegImmInPlace(reg, op, args);
    }
  }

  method LiInPlace(reg: array<i32>, args: seq<Arg>) returns (fault: Option<Fault>)
    requires reg.Length == NumRegisters && |args| == 2
    modifies reg
    ensures Agrees(ExecuteLi(old(reg[..]), args), fault, reg[..], old(reg[..]))
  {
    var rd := args[0].reg;
    if args[1].lit.None? {
      return Some(Abort);
    }
    if rd > 0 {
      if rd >= NumRegisters {
        return Some(Undefined);
      }
      reg[rd] := args[1].lit.value;
    }
    return None;
  }

  method ThreeRegInPlace(reg: array<i32>, op: Op, args: seq<Arg>) returns (fault: Option<Fault>)
    requires reg.Length == NumRegisters && op.IsThreeReg() && |args| == 3
    modifies reg
    ensures Agrees(ExecuteThreeReg(old(reg[..]), op, args), fault, reg[..], old(reg[..]))
  {
    var rd, rs, rt := args[0].reg, args[1].reg, args[2].reg;
    if rd > 0 && rs >= 0 && rt >= 0 {
      if rd >= NumRegisters || rs >= NumRegisters || rt >= NumRegisters {
        return Some(Undefined);
      }
      reg[rd] := Apply(op, reg[rs], reg[rt]);
    }
    return None;
  }

  method OrInPlace(reg: array<i32>, args: seq<Arg>) returns (fault: Option<Fault>)
    requires reg.Length == NumRegisters && |args| == 3
    modifies reg
    ensures Agrees(ExecuteOr(old(reg[..]), args), fault, reg[..], old(reg[..]))
  {
    var rd, rs := args[0].reg, args[1].reg;
    var val := ReadOrOperand(reg, args[2]);
    match val {
      case Throws => return Some(Abort);
      case Unbounded => return Some(Undefined);
      case Value(v) =>
        if rd > 0 && rs >= 0 {
          if rd >= NumRegisters || rs >= NumRegisters {
            return Some(Undefined);
          }
          reg[rd] := Bitwise32(BitOr, reg[rs], v);
        }
        return None;
    }
  }

  /** The third operand of `or`, read from `reg` or taken as a literal. */
  method ReadOrOperand(reg: array<i32>, x: Arg) returns (val: Operand)
    requires reg.Length == NumRegisters
    ensures val == OrOperand(reg[..], x)
  {
    if x.dollar {
      if 0 <= x.reg < NumRegisters {
        return Value(reg[x.reg]);
      }
      return Unbounded;
    }
    if x.lit.None? {
      return Throws;
    }
    return Value(x.lit.value);
  }

  method RegImmInPlace(reg: array<i32>, op: Op, args: seq<Arg>) returns (fault: Option<Fault>)
    requires reg.Length == NumRegisters && op.IsRegImm() && |args| == 3
    modifies reg
    ensures Agrees(ExecuteRegImm(old(reg[..]), op, args), fault, reg[..], old(reg[..]))
  {
    var rd, rs := args[0].reg, args[1].reg;
    if args[2].lit.None? {
      return Some(Abort);
    }
    var imm := args[2].lit.value;
    if rd > 0 && rs >= 0 {
      if rd >= NumRegisters || rs >= NumRegisters || (op.IsShift() && !(0 <= imm < 32)) {
        return Some(Undefined);
      }
      reg[rd] := Apply(op, reg[rs], imm);
    }
    return None;
  }
}
