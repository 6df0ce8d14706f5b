/**
 * The indexed VM of myvmm.cpp: the program is loaded into a vector of
 * cleaned lines, run from a program counter for at most `slice`
 * instructions, and `SNAPSHOT name` saves the registers together with the
 * index of the next instruction so that a later run can resume there.
 *
 * Snapshot files are an abstract store from file name to `VMState`; a save
 * to a name in `unwritable` fails (the file cannot be opened) and changes
 * nothing. The console lines of `DUMP_PROCESSOR_STATE` are kept as the
 * (index, value) pairs they print.
 */
module IndexedVm {
  import opened Int32
  import opened Text
  import opened Registers
  import opened Executor

  /** `VMState`: the registers and the index of the next instruction to run. */
  datatype VMState = VMState(regs: RegFile, pc: nat)

  type Store = map<string, VMState>

  /** `VMState state = {}`: every register zero, `pc` zero. */
  const Reset: VMState := VMState(ZeroRegs, 0)

  /** The abstract effect of `save_snapshot`: the file is written unless it cannot be opened. */
  function Save(store: Store, name: string, s: VMState, unwritable: set<string>): (r: Store)
    ensures name in unwritable ==> r == store
    ensures name !in unwritable ==> name in r && r[name] == s
    ensures forall other :: other in store && other != name ==> other in r && r[other] == store[other]
    ensures r.Keys <= store.Keys + {name}
  {
    if name in unwritable then store else store[name := s]
  }

  /**
   * The state a VM starts from: the named snapshot when one is asked for
   * and its file can be read, the reset state otherwise.
   */
  function InitialState(store: Store, snapshot: Option<string>): (s: VMState)
    ensures snapshot.Some? && snapshot.value != [] && snapshot.value in store ==> s == store[snapshot.value]
    ensures !(snapshot.Some? && snapshot.value != [] && snapshot.value in store) ==> s == Reset
  {
    if snapshot.Some? && snapshot.value != [] && snapshot.value in store then store[snapshot.value] else Reset
  }

  // ---------------------------------------------------------------------
  // Loading the program

  /** A line as the loader stores it: not blank, no comment, trimmed. */
  predicate IsStored(line: string) {
    line != [] && '#' !in line && IsTrimmed(line)
  }

  /** The instruction vector built from the file's lines, one `push_back` per non-blank cleaned line. */
  function Program(lines: seq<string>): seq<string> {
    if lines == [] then []
    else Program(lines[..|lines| - 1]) + Keep(CleanLine(lines[|lines| - 1]))
  }

  /** The loader keeps at most one instruction per line of the file. */
  lemma {:induction false} ProgramLength(lines: seq<string>)
    ensures |Program(lines)| <= |lines|
  {
    if lines != [] {
      ProgramLength(lines[..|lines| - 1]);
    }
  }

  /** Loading one more line appends it, cleaned, unless it is blank. */
  lemma ProgramSnoc(lines: seq<string>, line: string)
    ensures Program(lines + [line]) == Program(lines) + Keep(CleanLine(line))
  {
    var all := lines + [line];
    assert all[..|all| - 1] == lines && all[|all| - 1] == line;
  }

  lemma ProgramPrefix(lines: seq<string>, i: nat)
    requires i < |lines|
    ensures Program(lines[..i + 1]) == Program(lines[..i]) + Keep(CleanLine(lines[i]))
  {
    PrefixSnoc(lines, i);
    ProgramSnoc(lines[..i], lines[i]);
  }

  /** Every stored instruction is non-empty, free of comments and trimmed. */
  lemma {:induction false} ProgramStored(lines: seq<string>)
    ensures forall k :: 0 <= k < |Program(lines)| ==> IsStored(Program(lines)[k])
  {
    if lines != [] {
      ProgramStored(lines[..|lines| - 1]);
    }
  }

  /** Loading a program's own lines again gives the same program. */
  lemma {:induction false} ProgramOfProgram(lines: seq<string>)
    ensures Program(Program(lines)) == Program(lines)
  {
    if lines != [] {
      var init := lines[..|lines| - 1];
      var kept := Keep(CleanLine(lines[|lines| - 1]));
      ProgramOfProgram(init);
      var p := Program(init);
      if kept == [] {
        assert Program(lines) == p;
      } else {
        var line := kept[0];
        CleanLineOfClean(line);
        assert Program(lines) == p + [line];
        assert (p + [line])[..|p|] == p;
      }
    }
  }

  /** One pass of the loading loop: the line, cleaned, is pushed unless it is empty. */
  method LoadLine(prog: seq<string>, raw: string) returns (next: seq<string>)
    ensures next == prog + Keep(CleanLine(raw))
  {
    var line := CleanLine(raw);
    next := prog;
    if line != [] {
      next := next + [line];
    }
  }

  /** The loop of myvmm.cpp:163-171 that fills the instruction vector. */
  method LoadProgram(lines: seq<string>) returns (prog: seq<string>)
    ensures prog == Program(lines)
  {
    prog := [];
    var i := 0;
    while i < |lines|
      invariant 0 <= i <= |lines|
      invariant prog == Program(lines[..i])
    {
      ProgramPrefix(lines, i);
      prog := LoadLine(prog, lines[i]);
      i := i + 1;
    }
    WholePrefix(lines);
  }

  /**
   * The loop's `instr.empty()` branch is taken only by a stored line made
   * entirely of `isspace` characters, which the trimming forces to begin
   * and end with a vertical tab or a form feed.
   */
  lemma BlankStoredLine(line: string)
    requires IsStored(line) && Decode(line).mnemonic == []
    ensures forall k :: 0 <= k < |line| ==> IsSpace(line[k])
    ensures line[0] == '\U{000B}' || line[0] == '\U{000C}'
    ensures line[|line| - 1] == '\U{000B}' || line[|line| - 1] == '\U{000C}'
  {
    BlankMnemonic(line);
    assert IsSpace(line[0]) && IsSpace(line[|line| - 1]);
  }

  // ---------------------------------------------------------------------
  // The run loop

  /** `dump_processor_state`: all 32 registers, `$r0` first. */
  function Dump(regs: RegFile): (d: seq<(nat, i32)>)
    ensures |d| == NumRegisters
    ensures forall k :: 0 <= k < NumRegisters ==> d[k] == (k, regs[k])
  {
    seq(NumRegisters, k requires 0 <= k < NumRegisters => (k, regs[k]))
  }

  /** The loop's variables between two iterations. */
  datatype Cursor = Cursor(
    regs: RegFile,           // `state.reg`
    savedPc: nat,            // `state.pc`, assigned by `SNAPSHOT`
    pc: nat,                 // the loop's `pc`
    count: nat,              // `instr_count`
    store: Store,            // the snapshot files
    out: seq<(nat, i32)>,    // what `DUMP_PROCESSOR_STATE` printed
    fault: Option<Fault>)    // how the process stopped, if it did

  /** Where a run from `s` begins: `pc = state.pc`, `instr_count = 0`. */
  function Start(s: VMState, store: Store): Cursor {
    Cursor(s.regs, s.pc, s.pc, 0, store, [], None)
  }

  /** Which branch of the loop body a decoded line takes, tested in myvmm.cpp's order. */
  datatype Branch = Blank | DumpDirective | SnapshotDirective(name: string) | Opcode

  function BranchOf(ins: Instruction): Branch {
    if ins.mnemonic == [] then Blank
    else if ins.mnemonic == "DUMP_PROCESSOR_STATE" then DumpDirective
    else if ins.mnemonic == "SNAPSHOT" && |ins.operands| == 1 then SnapshotDirective(ins.operands[0])
    else Opcode
  }

  /** The opcode dispatch gets every line that is not blank and no directive. */
  lemma OpcodeBranch(ins: Instruction)
    ensures BranchOf(ins) == Opcode <==>
      && ins.mnemonic != [] && ins.mnemonic != "DUMP_PROCESSOR_STATE"
      && !(ins.mnemonic == "SNAPSHOT" && |ins.operands| == 1)
  {
  }

  /**
   * One iteration of the loop on a decoded line. A blank mnemonic advances
   * only `pc`; every other instruction advances `pc` and `instr_count` by
   * one, unless it faults, which stops the process where it is.
   */
  function Dispatch(c: Cursor, ins: Instruction, unwritable: set<string>): (r: Cursor)
    requires c.fault == None
    ensures r.fault == None ==> r.pc == c.pc + 1
    ensures r.fault == None ==> r.count == c.count + (if ins.mnemonic == [] then 0 else 1)
    ensures r.fault != None ==> r.pc == c.pc && r.count == c.count && r.regs == c.regs
    ensures r.regs[0] == c.regs[0]
  {
    match BranchOf(ins)
    case Blank => c.(pc := c.pc + 1)
    case DumpDirective => c.(out := c.out + Dump(c.regs), pc := c.pc + 1, count := c.count + 1)
    case SnapshotDirective(name) =>
      c.(savedPc := c.pc + 1,
         store := Save(c.store, name, VMState(c.regs, c.pc + 1), unwritable),
         pc := c.pc + 1, count := c.count + 1)
    case Opcode =>
      match Execute(c.regs, ins.mnemonic, ins.operands)
      case Next(regs) => c.(regs := regs, pc := c.pc + 1, count := c.count + 1)
      case Fail(f) => c.(fault := Some(f))
  }

  /** One iteration of the loop: the line at `pc`, decoded and dispatched. */
  function Step(prog: seq<string>, c: Cursor, unwritable: set<string>): Cursor
    requires c.pc < |prog| && c.fault == None
  {
    Dispatch(c, Decode(prog[c.pc]), unwritable)
  }

  /** A step writes at most one snapshot, holding the registers it started with. */
  lemma DispatchSaves(c: Cursor, ins: Instruction, unwritable: set<string>)
    requires c.fault == None
    ensures var r := Dispatch(c, ins, unwritable);
      forall name :: name in r.store ==>
        (name in c.store && r.store[name] == c.store[name]) || r.store[name].regs == c.regs
    ensures var r := Dispatch(c, ins, unwritable);
      || r.store == c.store
      || (BranchOf(ins).SnapshotDirective? && r.store == c.store[BranchOf(ins).name := VMState(c.regs, c.pc + 1)])
  {
  }

  /** Two cursors with the same registers, `pc` and fault take the same step. */
  lemma DispatchDependsOnMachine(a: Cursor, b: Cursor, ins: Instruction, unwritable: set<string>)
    requires a.fault == None && a.regs == b.regs && a.pc == b.pc && a.fault == b.fault
    ensures var ra, rb := Dispatch(a, ins, unwritable), Dispatch(b, ins, unwritable);
      && ra.regs == rb.regs && ra.pc == rb.pc && ra.fault == rb.fault
      && ra.count - a.count == rb.count - b.count
  {
  }

  /** The loop `while (pc < instructions.size() && instr_count < slice)`, stopped by a fault. */
  function Run(prog: seq<string>, c: Cursor, slice: int, unwritable: set<string>): Cursor
    decreases |prog| - c.pc, if c.fault == None then 1 else 0
  {
    if c.fault != None || c.pc >= |prog| || c.count >= slice then c
    else Run(prog, Step(prog, c, unwritable), slice, unwritable)
  }

  /** No line of the program takes the blank-mnemonic branch. */
  predicate NoBlankLines(prog: seq<string>) {
    forall k :: 0 <= k < |prog| ==> Decode(prog[k]).mnemonic != []
  }

  /**
   * The quota: a run that does not fault executes exactly
   * `min(slice - instr_count, N - pc)` more instructions, and `pc` advances by
   * as many.
   */
  lemma {:induction false} RunQuota(prog: seq<string>, c: Cursor, slice: int, unwritable: set<string>)
    requires c.fault == None && c.pc <= |prog| && NoBlankLines(prog)
    requires Run(prog, c, slice, unwritable).fault == None
    ensures var r := Run(prog, c, slice, unwritable);
      && r.count - c.count == r.pc - c.pc
      && r.count == if c.count >= slice then c.count else c.count + Min(slice - c.count, |prog| - c.pc)
    decreases |prog| - c.pc
  {
    if c.pc < |prog| && c.count < slice {
      var n := Step(prog, c, unwritable);
      assert n.fault == None;
      RunQuota(prog, n, slice, unwritable);
    }
  }

  /** From a fresh start, `min(slice, N - pc0)` instructions run, none when `slice <= 0` or `pc0 >= N`. */
  lemma RunCount(prog: seq<string>, s: VMState, store: Store, slice: int, unwritable: set<string>)
    requires s.pc <= |prog| && NoBlankLines(prog)
    requires Run(prog, Start(s, store), slice, unwritable).fault == None
    ensures var r := Run(prog, Start(s, store), slice, unwritable);
      && r.count == (if slice <= 0 then 0 else Min(slice, |prog| - s.pc))
      && r.pc == s.pc + r.count
  {
    RunQuota(prog, Start(s, store), slice, unwritable);
  }

  /** With no quota left, or no instruction left, the loop body never runs. */
  lemma RunNothing(prog: seq<string>, c: Cursor, slice: int, unwritable: set<string>)
    requires c.count >= slice || c.pc >= |prog|
    ensures Run(prog, c, slice, unwritable) == c
  {
  }

  /**
   * Register 0 keeps its value through a run, and every snapshot the run
   * writes holds that same value in register 0.
   */
  lemma {:induction false} RunKeepsRegisterZero(prog: seq<string>, c: Cursor, slice: int, unwritable: set<string>)
    ensures var r := Run(prog, c, slice, unwritable);
      && r.regs[0] == c.regs[0]
      && forall name :: name in r.store ==>
           (name in c.store && r.store[name] == c.store[name]) || r.store[name].regs[0] == c.regs[0]
    decreases |prog| - c.pc, if c.fault == None then 1 else 0
  {
    if c.fault == None && c.pc < |prog| && c.count < slice {
      var n := Step(prog, c, unwritable);
      DispatchSaves(c, Decode(prog[c.pc]), unwritable);
      RunKeepsRegisterZero(prog, n, slice, unwritable);
    }
  }

  /**
   * `SNAPSHOT name` with one operand saves the current registers with the
   * index of the next instruction, changes no register, and counts.
   */
  lemma SnapshotStep(c: Cursor, name: string, unwritable: set<string>)
    requires c.fault == None
    ensures var r := Dispatch(c, Instruction("SNAPSHOT", [name]), unwritable);
      && r.regs == c.regs && r.fault == None
      && r.pc == c.pc + 1 && r.savedPc == c.pc + 1 && r.count == c.count + 1
      && (name !in unwritable ==> name in r.store && r.store[name] == VMState(c.regs, c.pc + 1))
      && (name in unwritable ==> r.store == c.store)
  {
  }

  /** `SNAPSHOT` with another operand count falls through the dispatch: a counted no-op. */
  lemma SnapshotWrongArity(c: Cursor, ins: Instruction, unwritable: set<string>)
    requires c.fault == None
    requires ins.mnemonic == "SNAPSHOT" && |ins.operands| != 1
    ensures Dispatch(c, ins, unwritable) == c.(pc := c.pc + 1, count := c.count + 1)
  {
    DirectivesAreNoOpcode();
    UnknownOrWrongArityIsNoOp(c.regs, ins.mnemonic, ins.operands);
  }

  /** `DUMP_PROCESSOR_STATE` prints every register, changes none, and counts. */
  lemma DumpStep(c: Cursor, ins: Instruction, unwritable: set<string>)
    requires c.fault == None && ins.mnemonic == "DUMP_PROCESSOR_STATE"
    ensures Dispatch(c, ins, unwritable) == c.(out := c.out + Dump(c.regs), pc := c.pc + 1, count := c.count + 1)
  {
  }

  /** Any other instruction goes to the opcode dispatch; a fault stops where it is. */
  lemma ExecuteDispatch(c: Cursor, ins: Instruction, unwritable: set<string>)
    requires c.fault == None && BranchOf(ins) == Opcode
    ensures var o := Execute(c.regs, ins.mnemonic, ins.operands);
      && (o.Next? ==> Dispatch(c, ins, unwritable) == c.(regs := o.regs, pc := c.pc + 1, count := c.count + 1))
      && (o.Fail? ==> Dispatch(c, ins, unwritable) == c.(fault := Some(o.fault)))
  {
  }

  /** The part of a cursor that decides how the rest of the run goes. */
  predicate SameMachine(a: Cursor, b: Cursor, sliceA: int, sliceB: int) {
    a.regs == b.regs && a.pc == b.pc && a.fault == b.fault && sliceA - a.count == sliceB - b.count
  }

  /**
   * The rest of a run depends only on the registers, `pc`, and the quota
   * still left: the snapshot files, the printed text, `state.pc` and how
   * many instructions already ran make no difference.
   */
  lemma {:induction false} RunDependsOnMachine(prog: seq<string>, a: Cursor, b: Cursor,
                                               sliceA: int, sliceB: int, unwritable: set<string>)
    requires SameMachine(a, b, sliceA, sliceB)
    ensures SameMachine(Run(prog, a, sliceA, unwritable), Run(prog, b, sliceB, unwritable), sliceA, sliceB)
    decreases |prog| - a.pc, if a.fault == None then 1 else 0
  {
    if a.fault == None && a.pc < |prog| && a.count < sliceA {
      DispatchDependsOnMachine(a, b, Decode(prog[a.pc]), unwritable);
      RunDependsOnMachine(prog, Step(prog, a, unwritable), Step(prog, b, unwritable), sliceA, sliceB, unwritable);
    }
  }

  /**
   * A run started from `VMState(regs, pc)` with a quota of `k` ends with the
   * registers, `pc` and fault that a run already at `regs` and `pc`, with `k`
   * instructions of its `slice` left, reaches.
   */
  lemma ResumeFromState(prog: seq<string>, n: Cursor, slice: int, k: int, store: Store, unwritable: set<string>)
    requires n.fault == None && slice - n.count == k
    ensures var resumed := Run(prog, Start(VMState(n.regs, n.pc), store), k, unwritable);
      var continued := Run(prog, n, slice, unwritable);
      && resumed.regs == continued.regs && resumed.pc == continued.pc && resumed.fault == continued.fault
      && resumed.count == continued.count - n.count
  {
    RunDependsOnMachine(prog, Start(VMState(n.regs, n.pc), store), n, k, slice, unwritable);
  }

  /**
   * Resuming from a snapshot: the state `SNAPSHOT name` saves is the one the
   * interrupted run continues from, so a later run restored from it reaches
   * what the interrupted run would have with the same remaining quota.
   */
  lemma ResumeFromSnapshot(c: Cursor, name: string, unwritable: set<string>)
    requires c.fault == None && name !in unwritable
    ensures var n := Dispatch(c, Instruction("SNAPSHOT", [name]), unwritable);
      n.fault == None && name in n.store && n.store[name] == VMState(n.regs, n.pc)
  {
    SnapshotStep(c, name, unwritable);
  }

  // ---------------------------------------------------------------------
  // The loop as written, on the VM's state in place

  /** `dump_processor_state`: the loop printing `$r0` to `$r31`. */
  method DumpProcessorState(reg: array<i32>) returns (d: seq<(nat, i32)>)
    requires reg.Length == NumRegisters
    ensures |d| == NumRegisters
    ensures forall k :: 0 <= k < NumRegisters ==> d[k] == (k, reg[k])
  {
    d := [];
    var i := 0;
    while i < NumRegisters
      invariant 0 <= i <= NumRegisters && |d| == i
      invariant forall k :: 0 <= k < i ==> d[k] == (k, reg[k])
    {
      d := d + [(i, reg[i])];
      i := i + 1;
    }
  }

  /** The `VMState state` of one VM, updated in place by the loop. */
  class Machine {
    var reg: array<i32>
    var pc: nat

    ghost predicate Valid()
      reads this
    {
      reg.Length == NumRegisters
    }

    function State(): VMState
      reads this, reg
      requires Valid()
    {
      VMState(reg[..], pc)
    }

    /** `VMState state = s`. */
    constructor (s: VMState)
      ensures Valid() && State() == s && fresh(reg)
    {
      reg := new i32[NumRegisters](k requires 0 <= k < NumRegisters => s.regs[k]);
      pc := s.pc;
    }

    /**
     * `load_snapshot`: when the file can be read the whole state is
     * replaced by the saved one; otherwise nothing changes.
     */
    method Load(store: Store, name: string) returns (ok: bool)
      requires Valid()
      modifies this, reg
      ensures Valid() && reg == old(reg)
      ensures ok <==> name in store
      ensures ok ==> State() == store[name]
      ensures !ok ==> State() == old(State())
    {
      if name !in store {
        return false;
      }
      var s := store[name];
      forall k | 0 <= k < NumRegisters {
        reg[k] := s.regs[k];
      }
      pc := s.pc;
      assert reg[..] == s.regs;
      return true;
    }

    /**
     * One pass of the loop body of myvmm.cpp:180-274 at instruction `at`:
     * the specification's `Step` on the state in place.
     */
    method Iterate(prog: seq<string>, at: nat, count: nat, store: Store, out: seq<(nat, i32)>,
                   unwritable: set<string>)
      returns (at1: nat, count1: nat, store1: Store, out1: seq<(nat, i32)>, fault: Option<Fault>)
      requires Valid() && at < |prog|
      modifies this, reg
      ensures Valid() && reg == old(reg)
      ensures Step(prog, Cursor(old(reg[..]), old(pc), at, count, store, out, None), unwritable)
           == Cursor(reg[..], pc, at1, count1, store1, out1, fault)
    {
      var ins := ParseLine(prog[at]);
      at1, count1, store1, out1, fault := Perform(ins, at, count, store, out, unwritable);
    }

    /** The handlers of myvmm.cpp:187-271 for a decoded line: the specification's `Dispatch`. */
    method Perform(ins: Instruction, at: nat, count: nat, store: Store, out: seq<(nat, i32)>,
                   unwritable: set<string>)
      returns (at1: nat, count1: nat, store1: Store, out1: seq<(nat, i32)>, fault: Option<Fault>)
      requires Valid()
      modifies this, reg
      ensures Valid() && reg == old(reg)
      ensures Dispatch(Cursor(old(reg[..]), old(pc), at, count, store, out, None), ins, unwritable)
           == Cursor(reg[..], pc, at1, count1, store1, out1, fault)
    {
      ghost var c := Cursor(reg[..], pc, at, count, store, out, None);
      at1, count1, store1, out1, fault := at + 1, count + 1, store, out, None;
      match BranchOf(ins) {
        case Blank =>
          count1 := count;
        case DumpDirective =>
          var d := DumpProcessorState(reg);
          assert d == Dump(reg[..]);
          out1 := out + d;
        case SnapshotDirective(name) =>
          pc := at + 1;
          if name !in unwritable {
            store1 := store[name := State()];
          }
        case Opcode =>
          fault := ExecuteInPlace(reg, ins.mnemonic, ins.operands);
          if fault != None {
            at1, count1 := at, count;
          }
          ExecuteDispatch(c, ins, unwritable);
      }
    }

    /**
     * The loop of myvmm.cpp:175-275 from `pc = state.pc`: it ends where the
     * specification `Run` ends, with the same registers, `state.pc`,
     * counters, snapshot files, printed registers and fault.
     */
    method RunSlice(prog: seq<string>, slice: int, store0: Store, unwritable: set<string>)
      returns (next: nat, count: nat, store: Store, out: seq<(nat, i32)>, fault: Option<Fault>)
      requires Valid()
      modifies this, reg
      ensures Valid() && reg == old(reg)
      ensures Run(prog, Start(old(State()), store0), slice, unwritable)
           == Cursor(reg[..], pc, next, count, store, out, fault)
    {
      ghost var start := Start(State(), store0);
      next := pc;
      count := 0;
      store := store0;
      out := [];
      fault := None;
      while next < |prog| && count < slice && fault == None
        invariant Valid() && reg == old(reg)
        invariant Run(prog, Cursor(reg[..], pc, next, count, store, out, fault), slice, unwritable)
               == Run(prog, start, slice, unwritable)
        decreases |prog| - next, if fault == None then 1 else 0
      {
        ghost var c := Cursor(reg[..], pc, next, count, store, out, None);
        next, count, store, out, fault := Iterate(prog, next, count, store, out, unwritable);
        assert Run(prog, c, slice, unwritable) == Run(prog, Step(prog, c, unwritable), slice, unwritable);
      }
    }
  }

  /**
   * One VM of myvmm.cpp:143-275: reset, restore the snapshot if one is
   * asked for, load the program, and run one slice of it.
   */
  method RunVm(lines: seq<string>, slice: int, store0: Store, snapshot: Option<string>,
               unwritable: set<string>)
    returns (m: Machine, next: nat, count: nat, store: Store, out: seq<(nat, i32)>, fault: Option<Fault>)
    ensures m.Valid()
    ensures Run(Program(lines), Start(InitialState(store0, snapshot), store0), slice, unwritable)
         == Cursor(m.reg[..], m.pc, next, count, store, out, fault)
  {
    m := new Machine(Reset);
    if snapshot.Some? && snapshot.value != [] {
      var ok := m.Load(store0, snapshot.value);
    }
    var prog := LoadProgram(lines);
    next, count, store, out, fault := m.RunSlice(prog, slice, store0, unwritable);
  }
}
