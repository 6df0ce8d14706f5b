/**
 * The streaming VM of myvmm.cc: the program file is read line by line and
 * each instruction runs as soon as it is read. `DUMP_PROCESSOR_STATE`
 * prints registers 1..31 and does not count; every other instruction
 * counts, and the loop stops right after the instruction that brings the
 * count to `slice`, so at least one runs even when `slice <= 0`.
 *
 * `SNAPSHOT` is no directive in this version: like any unknown mnemonic it
 * changes nothing and counts.
 */
module StreamingVm {
  import opened Int32
  import opened Text
  import opened Registers
  import opened Executor

  /** `dump_processor_state` of this version: `R1` to `R31`, `$zero` left out. */
  function Dump(regs: RegFile): (d: seq<(nat, i32)>)
    ensures |d| == NumRegisters - 1
    ensures forall k :: 0 <= k < NumRegisters - 1 ==> d[k] == (k + 1, regs[k + 1])
  {
    seq(NumRegisters - 1, k requires 0 <= k < NumRegisters - 1 => (k + 1, regs[k + 1]))
  }

  /** The loop's state between two lines. */
  datatype Progress = Progress(
    regs: RegFile,           // `reg`
    count: nat,              // `instr_count`
    out: seq<(nat, i32)>,    // what `DUMP_PROCESSOR_STATE` printed
    fault: Option<Fault>)    // how the process stopped, if it did

  /** `int32_t reg[NUM_REGISTERS] = {0}` and `instr_count = 0`. */
  const Initial: Progress := Progress(ZeroRegs, 0, [], None)

  /** What one line of the file is to the loop, once comments and blanks are stripped. */
  datatype Line =
    | Skip                       // empty, comment-only, or no mnemonic: not dispatched
    | DumpLine                   // `DUMP_PROCESSOR_STATE`
    | Instr(ins: Instruction)    // anything else goes to the opcode dispatch

  /** The checks at the head of the loop body, in the order myvmm.cc makes them. */
  function Classify(line: string): Line {
    var clean := CleanLine(line);
    if clean == [] then Skip
    else
      var ins := Decode(clean);
      if ins.mnemonic == [] then Skip
      else if ins.mnemonic == "DUMP_PROCESSOR_STATE" then DumpLine
      else Instr(ins)
  }

  /**
   * One classified line: the progress after it, and whether the loop goes
   * on to the next line. Only instructions count; a fault, or reaching the
   * quota, ends the loop.
   */
  function Handle(p: Progress, k: Line, slice: int): (r: (Progress, bool))
    requires p.fault == None
    ensures r.1 ==> r.0.fault == None
    ensures r.0.regs[0] == p.regs[0]
    ensures r.0.fault == None ==> r.0.count == p.count + (if k.Instr? then 1 else 0)
    ensures r.0.fault != None ==> r.0.count == p.count && !r.1
    ensures !k.Instr? ==> r.1
    ensures k.Instr? && r.0.fault == None ==> (r.1 <==> r.0.count < slice)
  {
    match k
    case Skip => (p, true)
    case DumpLine => (p.(out := p.out + Dump(p.regs)), true)
    case Instr(ins) =>
      match Execute(p.regs, ins.mnemonic, ins.operands)
      case Fail(f) => (p.(fault := Some(f)), false)
      case Next(regs) => (p.(regs := regs, count := p.count + 1), p.count + 1 < slice)
  }

  /** The lines of the file, classified. */
  function Kinds(lines: seq<string>): seq<Line> {
    Map(Classify, lines)
  }

  /** The loop over classified lines. */
  function RunKinds(ks: seq<Line>, p: Progress, slice: int): Progress
    requires p.fault == None
    decreases |ks|
  {
    if ks == [] then p
    else
      var r := Handle(p, ks[0], slice);
      if r.1 then RunKinds(ks[1..], r.0, slice) else r.0
  }

  /** The loop `while (std::getline(prog, line))` of myvmm.cc:71-169. */
  function RunLines(lines: seq<string>, p: Progress, slice: int): Progress
    requires p.fault == None
  {
    RunKinds(Kinds(lines), p, slice)
  }

  /** The number of instructions among classified lines. */
  function Counted(ks: seq<Line>): nat {
    if ks == [] then 0
    else (if ks[0].Instr? then 1 else 0) + Counted(ks[1..])
  }

  /** The number of lines the loop counts. */
  function CountedLines(lines: seq<string>): nat {
    Counted(Kinds(lines))
  }

  // ---------------------------------------------------------------------
  // Properties of the loop

  /**
   * The quota: a run that does not fault counts exactly
   * `min(max(slice, 1), instr_count + instructions)`, since the check comes
   * after the increment.
   */
  lemma {:induction false} RunKindsCount(ks: seq<Line>, p: Progress, slice: int)
    requires p.fault == None && p.count < Max(slice, 1)
    requires RunKinds(ks, p, slice).fault == None
    ensures RunKinds(ks, p, slice).count == Min(Max(slice, 1), p.count + Counted(ks))
    decreases |ks|
  {
    if ks != [] {
      var r := Handle(p, ks[0], slice);
      if r.1 {
        RunKindsCount(ks[1..], r.0, slice);
      }
    }
  }

  /**
   * From the start, `min(max(slice, 1), counted lines)` instructions run: at
   * least one when the file has one, even if `slice <= 0`.
   */
  lemma RunCount(lines: seq<string>, slice: int)
    requires RunLines(lines, Initial, slice).fault == None
    ensures RunLines(lines, Initial, slice).count == Min(Max(slice, 1), CountedLines(lines))
  {
    RunKindsCount(Kinds(lines), Initial, slice);
  }

  /** Register 0 keeps its value through the whole file. */
  lemma {:induction false} RunKindsKeepsRegisterZero(ks: seq<Line>, p: Progress, slice: int)
    requires p.fault == None
    ensures RunKinds(ks, p, slice).regs[0] == p.regs[0]
    decreases |ks|
  {
    if ks != [] {
      var r := Handle(p, ks[0], slice);
      if r.1 {
        RunKindsKeepsRegisterZero(ks[1..], r.0, slice);
      }
    }
  }

  /** From the start, `reg[0]` is 0 when the process ends. */
  lemma RegisterZeroStaysZero(lines: seq<string>, slice: int)
    ensures RunLines(lines, Initial, slice).regs[0] == 0
  {
    RunKindsKeepsRegisterZero(Kinds(lines), Initial, slice);
  }

  lemma {:induction false} SkipInert(pre: seq<Line>, post: seq<Line>, p: Progress, slice: int)
    requires p.fault == None
    ensures RunKinds(pre + [Skip] + post, p, slice) == RunKinds(pre + post, p, slice)
    decreases |pre|
  {
    var all, without := pre + [Skip] + post, pre + post;
    if pre == [] {
      assert all[0] == Skip && all[1..] == post && without == post;
    } else {
      assert all[0] == pre[0] && all[1..] == pre[1..] + [Skip] + post;
      assert without[0] == pre[0] && without[1..] == pre[1..] + post;
      var r := Handle(p, pre[0], slice);
      if r.1 {
        SkipInert(pre[1..], post, r.0, slice);
      }
    }
  }

  /** Blank, comment-only and mnemonic-less lines can be inserted anywhere without changing the run. */
  lemma BlankLineInert(pre: seq<string>, line: string, post: seq<string>, p: Progress, slice: int)
    requires p.fault == None
    requires CleanLine(line) == [] || Decode(CleanLine(line)).mnemonic == []
    ensures RunLines(pre + [line] + post, p, slice) == RunLines(pre + post, p, slice)
  {
    MapAppend(Classify, pre + [line], post);
    MapAppend(Classify, pre, [line]);
    MapAppend(Classify, pre, post);
    assert Kinds([line]) == [Skip];
    SkipInert(Kinds(pre), Kinds(post), p, slice);
  }

  /** A line of blanks followed by a comment is skipped. */
  lemma CommentLineSkipped(lead: string, comment: string)
    requires forall k :: 0 <= k < |lead| ==> IsTrimChar(lead[k])
    ensures Classify(lead + "#" + comment) == Skip
  {
    var line := lead + "#" + comment;
    assert line[|lead|] == '#' && '#' !in lead;
    IndexOfFirst(line, '#', |lead|);
    assert StripComment(line) == lead;
    TrimOfBlanks(lead);
  }

  lemma {:induction false} TrimOfBlanks(s: string)
    requires forall k :: 0 <= k < |s| ==> IsTrimChar(s[k])
    ensures Trim(s) == []
  {
    assert TrimLeft(s) == [];
  }

  /** A line is the dump directive exactly when its mnemonic, after stripping, is `DUMP_PROCESSOR_STATE`. */
  lemma ClassifyDumpLine(line: string)
    ensures Classify(line) == DumpLine <==>
      CleanLine(line) != [] && Decode(CleanLine(line)).mnemonic == "DUMP_PROCESSOR_STATE"
  {
  }

  /** `DUMP_PROCESSOR_STATE` prints registers 1..31, changes none, and is not counted. */
  lemma DumpLineNotCounted(line: string, rest: seq<string>, p: Progress, slice: int)
    requires p.fault == None && Classify(line) == DumpLine
    ensures RunLines([line] + rest, p, slice) == RunLines(rest, p.(out := p.out + Dump(p.regs)), slice)
  {
    RunLinesCons(line, rest, p, slice);
    assert ([DumpLine] + Kinds(rest))[1..] == Kinds(rest);
  }

  /** The line at the head of the rest of the file goes first. */
  lemma RunLinesCons(line: string, rest: seq<string>, p: Progress, slice: int)
    requires p.fault == None
    ensures RunLines([line] + rest, p, slice) == RunKinds([Classify(line)] + Kinds(rest), p, slice)
  {
    MapAppend(Classify, [line], rest);
  }

  /**
   * An unknown mnemonic, `SNAPSHOT` among them, or a known one with the
   * wrong operand count, changes no register but counts toward the slice.
   */
  lemma UnknownInstructionCounts(ins: Instruction, rest: seq<Line>, p: Progress, slice: int)
    requires p.fault == None
    requires OpOf(ins.mnemonic) == Other || |ins.operands| != OpOf(ins.mnemonic).Arity()
    ensures var q := p.(count := p.count + 1);
      RunKinds([Instr(ins)] + rest, p, slice) == if q.count < slice then RunKinds(rest, q, slice) else q
  {
    UnknownOrWrongArityIsNoOp(p.regs, ins.mnemonic, ins.operands);
    assert ([Instr(ins)] + rest)[1..] == rest;
  }

  // ---------------------------------------------------------------------
  // The loop as written, on the register array

  /** `dump_processor_state`: the loop printing `R1` to `R31`. */
  method DumpProcessorState(reg: array<i32>) returns (d: seq<(nat, i32)>)
    requires reg.Length == NumRegisters
    ensures |d| == NumRegisters - 1
    ensures forall k :: 0 <= k < NumRegisters - 1 ==> d[k] == (k + 1, reg[k + 1])
  {
    d := [];
    var i := 1;
    while i < NumRegisters
      invariant 1 <= i <= NumRegisters && |d| == i - 1
      invariant forall k :: 0 <= k < i - 1 ==> d[k] == (k + 1, reg[k + 1])
    {
      d := d + [(i, reg[i])];
      i := i + 1;
    }
  }

  /** The head of the loop body: strip the line, parse it, and tell directives from instructions. */
  method ClassifyLine(line: string) returns (k: Line)
    ensures k == Classify(line)
  {
    var clean := CleanLine(line);
    if clean == [] {
      return Skip;
    }
    var ins := ParseLine(clean);
    if ins.mnemonic == [] {
      k := Skip;
    } else if ins.mnemonic == "DUMP_PROCESSOR_STATE" {
      k := DumpLine;
    } else {
      k := Instr(ins);
    }
  }

  /** The rest of the loop body, on `reg` in place: the specification's `Handle`. */
  method HandleLine(reg: array<i32>, k: Line, slice: int, count: nat, out: seq<(nat, i32)>)
    returns (count1: nat, out1: seq<(nat, i32)>, fault: Option<Fault>, more: bool)
    requires reg.Length == NumRegisters
    modifies reg
    ensures Handle(Progress(old(reg[..]), count, out, None), k, slice)
         == (Progress(reg[..], count1, out1, fault), more)
  {
    count1, out1, fault, more := count, out, None, true;
    ghost var p := Progress(reg[..], count, out, None);
    match k {
      case Skip =>
      case DumpLine =>
        var d := DumpProcessorState(reg);
        assert d == Dump(reg[..]);
        out1 := out + d;
      case Instr(ins) =>
        fault := ExecuteInPlace(reg, ins.mnemonic, ins.operands);
        HandleInstr(p, ins, slice);
        if fault != None {
          more := false;
        } else {
          count1 := count + 1;
          more := count1 < slice;
        }
    }
  }

  /** An instruction line either faults and stops, or runs and counts. */
  lemma HandleInstr(p: Progress, ins: Instruction, slice: int)
    requires p.fault == None
    ensures var o := Execute(p.regs, ins.mnemonic, ins.operands);
      && (o.Fail? ==> Handle(p, Instr(ins), slice) == (p.(fault := Some(o.fault)), false))
      && (o.Next? ==> Handle(p, Instr(ins), slice) == (p.(regs := o.regs, count := p.count + 1), p.count + 1 < slice))
  {
  }

  /** One pass of the loop body, on the `i`-th line of the file. */
  method StepLine(reg: array<i32>, lines: seq<string>, i: nat, slice: int, count: nat, out: seq<(nat, i32)>)
    returns (count1: nat, out1: seq<(nat, i32)>, fault: Option<Fault>, more: bool)
    requires reg.Length == NumRegisters && i < |lines|
    modifies reg
    ensures Handle(Progress(old(reg[..]), count, out, None), Kinds(lines)[i], slice)
         == (Progress(reg[..], count1, out1, fault), more)
  {
    var k := ClassifyLine(lines[i]);
    assert k == Kinds(lines)[i];
    count1, out1, fault, more := HandleLine(reg, k, slice, count, out);
  }

  lemma RunKindsStep(ks: seq<Line>, i: nat, p: Progress, slice: int)
    requires i < |ks| && p.fault == None
    ensures var r := Handle(p, ks[i], slice);
      RunKinds(ks[i..], p, slice) == if r.1 then RunKinds(ks[i + 1..], r.0, slice) else r.0
  {
    assert ks[i..][0] == ks[i] && ks[i..][1..] == ks[i + 1..];
  }

  /** `main`'s loop over the program file, from all-zero registers. */
  method RunStream(lines: seq<string>, slice: int)
    returns (reg: array<i32>, count: nat, out: seq<(nat, i32)>, fault: Option<Fault>)
    ensures reg.Length == NumRegisters
    ensures RunLines(lines, Initial, slice) == Progress(reg[..], count, out, fault)
  {
    reg := new i32[NumRegisters](_ => 0);
    count, out, fault := 0, [], None;
    assert reg[..] == ZeroRegs;
    ghost var ks := Kinds(lines);
    var i := 0;
    while i < |lines|
      invariant 0 <= i <= |lines| && fault == None
      invariant RunKinds(ks[i..], Progress(reg[..], count, out, None), slice) == RunKinds(ks, Initial, slice)
    {
      RunKindsStep(ks, i, Progress(reg[..], count, out, None), slice);
      var more;
      count, out, fault, more := StepLine(reg, lines, i, slice, count, out);
      if !more {
        return;
      }
      i := i + 1;
    }
  }
}
