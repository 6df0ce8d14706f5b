# baby_hypervisor: the MIPS-style register VM, modelled in Dafny

`myvmm` runs small MIPS-flavoured assembly programs on a file of 32
`int32_t` registers. Register 0 (`$zero`) is never written. Two versions of
the program exist:

- `myvmm.cpp` loads the whole program into a vector of cleaned lines. It
  runs from a program counter for at most `slice` instructions. It can
  restore its registers and `pc` from a snapshot file, and `SNAPSHOT name`
  saves them with `pc + 1` so that a later run resumes after it.
- `myvmm.cc` is the earlier streaming version. It executes each line as
  it reads it. `DUMP_PROCESSOR_STATE` does not count, and the quota check
  comes after the increment, so at least one instruction runs.

The model is split into six modules.

- `Int32` (`int32.dfy`): two's-complement 32-bit arithmetic on unbounded
  integers. Wrap-around is written out with `Wrap32`. The bitwise operators
  are defined bit by bit on the unsigned view.
- `Text` (`text.dfy`): the text handling both versions share.
  - `std::stoi` as a decimal parse that returns `Option` (`None` stands for
    the exception).
  - Comment stripping and trimming (`CleanLine`).
  - The `>>` read of the mnemonic and the operand split on `,`
    (`Decode`, and the `SplitOperands` loop).
- `Registers` (`registers.dfy`): `reg_names` and `reg_index`. It has a
  specification function (`RegisterIndex`) and the loop as written
  (`RegIndex`).
- `Executor` (`executor.dfy`): the opcode dispatch of `li`, `add`, `sub`,
  `addi`, `mul`, `and`, `or`, `ori`, `xor`, `sll` and `srl`.
  - It is specified as a function from registers to an `Outcome`: the next
    register file, or a `Fault`. `Abort` is an uncaught `std::stoi`
    exception. `Undefined` is a C++ undefined-behaviour access or shift.
  - Methods run the dispatch on an `array<i32>` in place and are proved
    against that function.
- `IndexedVm` (`indexed_vm.dfy`): the `myvmm.cpp` loader, run loop and
  snapshots.
  - Specification functions: `Program`, `Dispatch` and `Run`.
  - A `Machine` class holds `VMState` (the register array and `pc`). Its
    methods update it in place, as the loop does, and are proved equal to
    `Run`.
- `StreamingVm` (`streaming_vm.dfy`): the `myvmm.cc` loop. Specification
  functions (`Classify`, `Handle`, `RunLines`) are proved equal to
  `RunStream`, which works on the register array.

Operand tokens are resolved once into an `Arg`: the `reg_index` result, the
`std::stoi` result and whether the token starts with `$`. The opcode
semantics are stated on those values. Both functions are free of side
effects, and an exception from `std::stoi` is kept as a value and only
acts where the source calls it. So resolving eagerly changes no outcome.

Where the design description and the code disagree, the model follows the
code:

- A `$`-numeral is not range-checked: `"$40"` resolves to 40, and using it
  as an index is undefined behaviour (`Fault.Undefined`). It is not a
  skipped instruction.
- A literal that `std::stoi` rejects (no digits, or out of `int` range)
  throws an exception nothing catches, so the process aborts
  (`Fault.Abort`). The instruction is not skipped. This happens even when
  the destination is `$zero`, because the literal is parsed before the
  guard.
- `or` with a `$` third operand reads `reg[reg_index(x)]` before its guard,
  so an unknown name (index -1) is an out-of-bounds read.
- The `instr.empty()` branch of `myvmm.cpp` is reachable. The loader trims
  only space, tab, CR and LF, while `>>` skips every `isspace` character.
  So a line made entirely of `isspace` characters that begins and ends with
  a vertical tab or a form feed (for example `"\v \f"`) is stored but has
  no mnemonic. That line advances `pc` but not `instr_count`. A line that
  merely starts with a vertical tab and has text after it still has a
  mnemonic.
- In `myvmm.cc`, `SNAPSHOT` is no directive: like any unknown mnemonic it
  changes nothing and counts.

## Model

| member | source | states |
|---|---|---|
| Int32.Wrap32 | myvmm.cpp:30 | the `int32_t` a value truncates to is congruent to it modulo 2^32, and is the value itself when it fits |
| Int32.Unsigned | myvmm.cpp:270 | `(uint32_t)a` is `a` for non-negative `a`, `a + 2^32` for negative `a`, always below 2^32 |
| Int32.Signed | myvmm.cpp:270 | storing a `uint32_t` back into `int32_t` is the inverse of `Unsigned`, and keeps values below 2^31 |
| Int32.AddWrap | myvmm.cpp:225 | `+` on `int32_t` is exact without overflow, and off by exactly 2^32 on overflow in either direction |
| Int32.SubWrap | myvmm.cpp:229 | `-` on `int32_t` is exact without overflow, and off by exactly 2^32 on overflow in either direction |
| Int32.MulWrap | myvmm.cpp:238 | `*` on `int32_t` is the product modulo 2^32, exact when it fits |
| Int32.Bitwise32 | myvmm.cpp:242 | `&`, `\|` and `^` act bit by bit on the 32-bit unsigned views of the operands |
| Int32.ShiftLeft | myvmm.cpp:265 | `a << s` for `s` in 0..31 is `a * 2^s` modulo 2^32, exact when it fits |
| Int32.ShiftRightLogical | myvmm.cpp:266-270 | `(uint32_t)a >> s` for `s` in 0..31, stored back into `int32_t`, has the unsigned view `(uint32_t)a / 2^s` |
| Int32.ShiftRightLogicalNonNegative | myvmm.cpp:270 | `(uint32_t)a >> s` with `s >= 1` is never negative, and is `a / 2^s` for non-negative `a` |
| Int32.OrZero | myvmm.cpp:256 | `0 \| b == b` |
| Int32.XorSelf | myvmm.cpp:260 | `a ^ a == 0` |
| Int32.AndSelf | myvmm.cpp:242 | `a & a == a` |
| Text.IndexOf | myvmm.cpp:165 | `find` gives a position holding the character with no earlier occurrence |
| Text.StripComment | myvmm.cpp:165-166 | the text before the first `#`: a prefix with no `#`, which stops exactly at a `#` of the line when there is one, and is the whole line when there is none |
| Text.TrimLeft | myvmm.cpp:167 | the left trim is a suffix that starts with no trim character |
| Text.TrimLeftDrops | myvmm.cpp:167 | what the left trim drops is made of space, tab, CR and LF only |
| Text.TrimRight | myvmm.cpp:169 | the right trim is a prefix that ends with no trim character |
| Text.TrimRightDropsTail | myvmm.cpp:169 | what the right trim drops is made of trim characters only |
| Text.Trim | myvmm.cpp:167-170 | `substr(first, last - first + 1)` between the first and last characters outside " \t\r\n", empty when there are none; its meaning is stated by `TrimIsTrimmed`, `TrimInfix`, `TrimDropsOnlyBlanks` and `TrimOfTrimmed` |
| Text.TrimIsTrimmed | myvmm.cpp:167-170 | the trimmed text has no leading and no trailing trim character |
| Text.TrimInfix | myvmm.cpp:170 | the trimmed text is the contiguous slice `substr(first, last - first + 1)` of the original |
| Text.TrimDropsOnlyBlanks | myvmm.cpp:167-170 | everything before and after that slice is a trim character |
| Text.TrimOfTrimmed | myvmm.cpp:167-170 | trimming text that is already trimmed changes nothing |
| Text.TrimKeepsOut | myvmm.cpp:165-170 | a character absent from the text is absent from its trimmed form |
| Text.TrimSkipsLeading | myvmm.cpp:167 | a leading blank does not change the trimmed text |
| Text.CleanLine | myvmm.cpp:165-170 | a cleaned line has no `#` and no outer blanks |
| Text.CleanLineIdempotent | myvmm.cpp:165-170 | cleaning a cleaned line changes nothing |
| Text.CleanLineOfClean | myvmm.cpp:165-170 | a line without comment and outer blanks is kept as it is |
| Text.CleanLineNoComment | myvmm.cpp:165-170 | a line without `#` cleans to its trimmed text |
| Text.CleanLineOfComment | myvmm.cpp:165-170 | a line `code # comment` with no `#` in `code` cleans to the trimmed `code`: the comment is cut at its first `#`, whatever it holds |
| Text.SkipSpace | myvmm.cpp:220 | `std::stoi` starts reading at a suffix that begins with no `isspace` character |
| Text.SkipSpaceDropsSpace | myvmm.cpp:220 | what it skips is `isspace` only |
| Text.LeadingDigits | myvmm.cpp:220 | the digits `std::stoi` reads are the longest all-digit prefix |
| Text.Stoi | myvmm.cpp:220 | `std::stoi` in base 10: blanks skipped, an optional sign, the longest digit run; no value when there is no digit or it does not fit `int`; its meaning is stated by `StoiDecimal`, `StoiNegative`, `StoiOutOfRange` and `StoiNoDigit` |
| Text.StoiDecimal | myvmm.cpp:220 | `std::stoi` of the decimal numeral of `n < 2^31`, followed by any non-digit text, is `n` |
| Text.StoiNegative | myvmm.cpp:220 | a minus sign before a numeral gives its negation, down to -2^31 |
| Text.StoiOutOfRange | myvmm.cpp:220 | a numeral of 2^31 or more makes `std::stoi` throw |
| Text.StoiNoDigit | myvmm.cpp:220 | text that starts with no digit, sign or blank makes `std::stoi` throw |
| Text.StoiOfDigits | myvmm.cpp:39 | text that starts with a digit never parses to a negative value |
| Text.TakeToken | myvmm.cpp:186 | `iss >> instr` reads the maximal prefix without `isspace` |
| Text.UpToNewline | myvmm.cpp:192 | `std::getline` reads the prefix before the first newline, which stops exactly at a newline when there is one, and is the whole text when there is none |
| Text.Operands | myvmm.cpp:193-202 | the comma-separated fields of the operand text, each trimmed, the blank ones dropped; stated by `OperandsWellFormed`, `OperandsOfJoin` and, against the loop, `SplitOperands` |
| Text.OperandsWellFormed | myvmm.cpp:194-202 | every operand is non-empty, trimmed and free of commas |
| Text.OperandsSkipLeading | myvmm.cpp:195-198 | blanks before the first field do not change the operands |
| Text.SplitOperands | myvmm.cpp:193-202 | the `getline(argss, arg, ',')` loop yields exactly the trimmed non-blank fields, in order |
| Text.Decode | myvmm.cpp:184-202 | the mnemonic contains no `isspace`, and every operand is well formed |
| Text.BlankMnemonic | myvmm.cpp:186-187 | the mnemonic is empty if and only if the whole line is `isspace` |
| Text.ParseLine | myvmm.cpp:184-202 | the decoding as the loop performs it equals `Decode` |
| Text.OperandsOfJoin | myvmm.cpp:194-202 | splitting operands joined by `", "` gives them back |
| Text.DecodeFormat | myvmm.cpp:184-202 | decoding the text `mnemonic op1, op2, ...` of a well-formed instruction gives the instruction back |
| Text.CleanFormat | myvmm.cpp:164-202 | that text also survives the loader's clean-up, so the round trip holds through loading |
| Registers.RegNamesShape | myvmm.cpp:12-17 | 32 names, none empty, none of the `$`-digit form, all distinct |
| Registers.NameIndex | myvmm.cpp:42-43 | the table search finds the first position holding the token, or -1 exactly when it is absent |
| Registers.RegisterIndex | myvmm.cpp:35-45 | `reg_index` gives -1 or more: a `$`-numeral its value, otherwise the position of the name in `reg_names`, -1 for no name; stated by the lemmas below |
| Registers.RegisterIndexOfName | myvmm.cpp:42-43 | each symbolic name resolves to its own position |
| Registers.RegisterIndexOfNumeral | myvmm.cpp:38-39 | `$` followed by the numeral of `n` and a non-digit resolves to `n`, with no upper bound |
| Registers.RegisterIndexOverflow | myvmm.cpp:38-44 | a `$`-numeral that overflows `int` is swallowed and resolves to -1 |
| Registers.RegisterIndexByName | myvmm.cpp:35-45 | outside the numeral form, the result is `i` if and only if the token is `reg_names[i]`, and -1 if and only if it is no name |
| Registers.RegIndex | myvmm.cpp:35-45 | the loop as written returns `RegisterIndex`; the `reg_index` of myvmm.cc:20-31 is the same text |
| Executor.OpOf | myvmm.cpp:218-271 | the `if (instr == ...)` chain maps each of the eleven mnemonics to its opcode and every other text to `Other`; stated by `OpOfMnemonic` and `OpOfOther` |
| Executor.Resolve | myvmm.cpp:219-220 | an operand token resolves to its `reg_index` (never below -1), its `std::stoi` result and whether it starts with `$` |
| Executor.OpOfMnemonic | myvmm.cpp:218-266 | every opcode is reached by its own mnemonic, so no branch shadows another |
| Executor.OpOfOther | myvmm.cpp:218-271 | a mnemonic falls through the chain if and only if it is none of the eleven |
| Executor.DirectivesAreNoOpcode | myvmm.cpp:205-216 | `DUMP_PROCESSOR_STATE` and `SNAPSHOT` are no opcode |
| Executor.Apply | myvmm.cpp:222-270 | the value each opcode stores from its two source values, with the wrap-around and shift semantics of `Int32`; stated by `ThreeRegisterResult` and `ImmediateResult` |
| Executor.OrOperand | myvmm.cpp:246-249 | the third operand of `or`: a `$` token reads `reg[reg_index(x)]` even out of bounds, any other token is parsed by `std::stoi`; stated by `OrOperandCases` |
| Executor.OrOperandCases | myvmm.cpp:246-249 | the third operand of `or` throws exactly when it is a literal `std::stoi` rejects, is an out-of-bounds read exactly when it is a `$` token with no index in 0..31, and is that register's value otherwise for a `$` token |
| Executor.Write | myvmm.cpp:221 | a store succeeds if and only if the index is at most 31, and then changes that register only |
| Executor.ExecuteLi | myvmm.cpp:218-221 | `li` changes at most its destination and never register 0 |
| Executor.ExecuteThreeReg | myvmm.cpp:222-242 | a three-register opcode changes at most its destination and never register 0 |
| Executor.ExecuteOr | myvmm.cpp:243-251 | `or` changes at most its destination and never register 0 |
| Executor.ExecuteRegImm | myvmm.cpp:230-234 | an immediate opcode changes at most its destination and never register 0 |
| Executor.ExecuteOp | myvmm.cpp:218-271 | an instruction changes at most the register its first operand names, and nothing without operands |
| Executor.Execute | myvmm.cpp:218-271 | any register that changes is the one the first operand token names, and register 0 never changes |
| Executor.UnknownOrWrongArityIsNoOp | myvmm.cpp:218-271 | an unknown mnemonic, or a known one with the wrong operand count, changes nothing |
| Executor.NoWriteBelowOne | myvmm.cpp:221 | a destination of `$zero` or no register leaves the file unchanged |
| Executor.MissingSourceIsNoOp | myvmm.cpp:224 | a source that is no register skips a three-register opcode, and never changes a register otherwise |
| Executor.LoadImmediate | myvmm.cpp:218-221 | `li` stores the parsed literal in its destination |
| Executor.BadLiteralAborts | myvmm.cpp:220 | a literal `std::stoi` rejects aborts `li` and every immediate opcode, whatever the destination |
| Executor.ThreeRegisterResult | myvmm.cpp:222-242 | `add`, `sub`, `mul`, `and` and `xor` store their operator on the two source registers |
| Executor.ImmediateResult | myvmm.cpp:230-234 | `addi`, `ori`, `sll` and `srl` store their operator on the source register and the literal |
| Executor.ShiftOutOfRange | myvmm.cpp:261-270 | a shift by a literal outside 0..31 is undefined behaviour |
| Executor.OrResult | myvmm.cpp:243-251 | `or` takes a register for a `$` operand and a literal otherwise; a `$` operand naming no register is an out-of-bounds read, and a bad literal aborts |
| Executor.OrReadsBeforeGuard | myvmm.cpp:246-247 | `or` reads `reg[-1]` for an unknown `$` name even when the write would be skipped |
| Executor.DestinationPastEnd | myvmm.cpp:219-221 | a `$`-numeral destination past 31 is an out-of-bounds write |
| Executor.ShiftRightStoresNonNegative | myvmm.cpp:266-270 | `srl` by at least one stores a non-negative value |
| Executor.OriFromZeroLoads | myvmm.cpp:252-256 | `ori rd, $zero, imm` loads `imm` |
| Executor.XorSelfClears | myvmm.cpp:257-260 | `xor rd, rs, rs` clears `rd` |
| Executor.ResolveToken | myvmm.cpp:219-220 | the `reg_index` and `std::stoi` calls on a token give its `Resolve` value |
| Executor.ExecuteInPlace | myvmm.cpp:218-271 | the dispatch on the register array reaches the outcome of `Execute`, and writes nothing when it faults |
| Executor.ExecuteOpInPlace | myvmm.cpp:218-271 | each opcode branch on the array agrees with `ExecuteOp` |
| Executor.LiInPlace | myvmm.cpp:218-221 | `li` on the array agrees with `ExecuteLi` |
| Executor.ThreeRegInPlace | myvmm.cpp:222-242 | the three-register branches on the array agree with `ExecuteThreeReg` |
| Executor.OrInPlace | myvmm.cpp:243-251 | `or` on the array agrees with `ExecuteOr` |
| Executor.ReadOrOperand | myvmm.cpp:246-249 | the third operand of `or` is read from the array or parsed, as `OrOperand` says |
| Executor.RegImmInPlace | myvmm.cpp:230-234 | the immediate branches on the array agree with `ExecuteRegImm` |
| IndexedVm.Save | myvmm.cpp:56-62 | a save writes the named file with the state unless it cannot be opened, leaves every other file alone, and creates no other file |
| IndexedVm.InitialState | myvmm.cpp:144-154 | a run starts from the named snapshot when it exists, and from all zeros otherwise |
| IndexedVm.Program | myvmm.cpp:164-172 | the instruction vector: one `push_back` per line that cleans to non-empty text, in file order; stated by `ProgramLength`, `ProgramStored`, `ProgramOfProgram` and `LoadProgram` |
| IndexedVm.ProgramLength | myvmm.cpp:164-172 | the instruction vector holds at most one entry per file line |
| IndexedVm.ProgramStored | myvmm.cpp:164-172 | every stored instruction is non-empty, has no `#` and no outer blanks |
| IndexedVm.ProgramOfProgram | myvmm.cpp:164-172 | loading the stored lines again gives the same program |
| IndexedVm.LoadLine | myvmm.cpp:165-171 | one pass of the loading loop appends the cleaned line exactly when it is not empty, as `Program` does for one more line |
| IndexedVm.LoadProgram | myvmm.cpp:164-172 | the `push_back` loop builds `Program(lines)` |
| IndexedVm.BlankStoredLine | myvmm.cpp:184-187 | a stored line takes the `instr.empty()` branch only if it is made entirely of `isspace` characters, and then it begins and ends with a vertical tab or a form feed |
| IndexedVm.OpcodeBranch | myvmm.cpp:204-218 | a line reaches the opcode dispatch if and only if it is not blank, not `DUMP_PROCESSOR_STATE` and not a one-operand `SNAPSHOT` |
| IndexedVm.Dump | myvmm.cpp:48-53 | `dump_processor_state` yields all 32 registers, `(i, reg[i])` at position `i` |
| IndexedVm.Dispatch | myvmm.cpp:184-274 | without a fault, `pc` advances by one and `instr_count` by one unless the mnemonic is blank; a fault changes neither; register 0 keeps its value |
| IndexedVm.Step | myvmm.cpp:180-274 | one pass of the loop body: the line at `pc`, decoded and dispatched; stated by `Dispatch` and the step lemmas |
| IndexedVm.DispatchSaves | myvmm.cpp:208-216 | a step leaves the snapshot files as they are, or writes the one file its `SNAPSHOT` operand names with the registers it started with and `pc + 1`; every file it writes holds those registers |
| IndexedVm.DispatchDependsOnMachine | myvmm.cpp:184-274 | a step's effect on registers, `pc` and fault depends only on registers and `pc` |
| IndexedVm.Run | myvmm.cpp:175-275 | the loop `while (pc < instructions.size() && instr_count < slice)`, stopped by a fault; stated by `RunQuota`, `RunCount`, `RunNothing`, `RunKeepsRegisterZero` and the resume lemmas |
| IndexedVm.RunQuota | myvmm.cpp:175-180 | a run without blank lines or faults executes `min(slice - instr_count, N - pc)` instructions, and `pc` advances by as many |
| IndexedVm.RunCount | myvmm.cpp:175-180 | from `pc0 <= N`, exactly `min(slice, N - pc0)` instructions run (none for `slice <= 0`), and the final `pc` is `pc0` plus that count |
| IndexedVm.RunNothing | myvmm.cpp:180 | with no quota left, or `pc >= N`, the loop body never runs |
| IndexedVm.RunKeepsRegisterZero | myvmm.cpp:218-274 | register 0 keeps its value through a run, and every snapshot written holds that value |
| IndexedVm.SnapshotStep | myvmm.cpp:208-216 | `SNAPSHOT name` saves the registers with `pc + 1`, sets `state.pc`, changes no register and counts, and a failed save changes no file |
| IndexedVm.SnapshotWrongArity | myvmm.cpp:208 | `SNAPSHOT` with another operand count is a counted no-op |
| IndexedVm.DumpStep | myvmm.cpp:205-207 | `DUMP_PROCESSOR_STATE` prints all 32 registers, changes none, and counts |
| IndexedVm.ExecuteDispatch | myvmm.cpp:217-274 | any other line runs the opcode dispatch; a fault stops the loop where it is |
| IndexedVm.RunDependsOnMachine | myvmm.cpp:175-275 | the rest of a run depends only on registers, `pc` and the quota left |
| IndexedVm.ResumeFromState | myvmm.cpp:175 | a run restarted from `VMState(regs, pc)` with the remaining quota ends where the uninterrupted run ends |
| IndexedVm.ResumeFromSnapshot | myvmm.cpp:208-216 | the state `SNAPSHOT` saves is exactly the registers and `pc` the run continues from |
| IndexedVm.DumpProcessorState | myvmm.cpp:48-53 | the dump lists `(i, reg[i])` for `i` from 0 to 31 in order |
| IndexedVm.Machine.constructor | myvmm.cpp:144 | a new machine holds the given state |
| IndexedVm.Machine.Load | myvmm.cpp:65-71 | a load succeeds if and only if the file exists, and then replaces the whole state; otherwise nothing changes |
| IndexedVm.Machine.Iterate | myvmm.cpp:180-274 | one pass of the loop body on the state in place equals `Step` |
| IndexedVm.Machine.Perform | myvmm.cpp:187-274 | the handlers on the state in place equal `Dispatch` |
| IndexedVm.Machine.RunSlice | myvmm.cpp:175-275 | the loop on the state in place ends where `Run` ends |
| IndexedVm.RunVm | myvmm.cpp:143-275 | a VM's reset, snapshot restore, load and run slice end where `Run` of the loaded program ends |
| StreamingVm.Dump | myvmm.cc:34-38 | the dump yields registers 1 to 31, `(i + 1, reg[i + 1])` at position `i`, leaving out `$zero` |
| StreamingVm.Classify | myvmm.cc:73-91 | a line is skipped when it cleans to nothing or has no mnemonic, is the dump directive for `DUMP_PROCESSOR_STATE`, and an instruction otherwise; stated by `ClassifyDumpLine`, `CommentLineSkipped` and `BlankLineInert` |
| StreamingVm.Handle | myvmm.cc:82-168 | only instructions count; a fault stops without counting; the loop goes on after an instruction if and only if the count is below `slice`; register 0 keeps its value |
| StreamingVm.RunKinds | myvmm.cc:71-169 | the loop over classified lines, each handled by `Handle`, ending at a fault or the quota; stated by `RunKindsCount` and `RunKindsKeepsRegisterZero` |
| StreamingVm.RunLines | myvmm.cc:71-169 | the loop `while (std::getline(prog, line))` on the file's lines; stated by `RunCount`, `SkipInert` and `RegisterZeroStaysZero` |
| StreamingVm.RunKindsCount | myvmm.cc:167-168 | a run without faults counts exactly `min(max(slice, 1), count + instructions)` |
| StreamingVm.RunCount | myvmm.cc:70-169 | from the start, `min(max(slice, 1), counted lines)` instructions run, so at least one runs even when `slice <= 0` |
| StreamingVm.RunKindsKeepsRegisterZero | myvmm.cc:110-164 | register 0 keeps its value through the loop |
| StreamingVm.RegisterZeroStaysZero | myvmm.cc:64-169 | register 0 is 0 when the process ends |
| StreamingVm.SkipInert | myvmm.cc:77-85 | a skipped line can be removed without changing the run |
| StreamingVm.BlankLineInert | myvmm.cc:73-85 | blank, comment-only and mnemonic-less lines can be inserted anywhere without changing the run |
| StreamingVm.CommentLineSkipped | myvmm.cc:73-78 | a line of blanks followed by a comment is skipped |
| StreamingVm.TrimOfBlanks | myvmm.cc:77-78 | a line of trim characters only trims to nothing |
| StreamingVm.ClassifyDumpLine | myvmm.cc:82-91 | a line is the dump directive if and only if its cleaned mnemonic is `DUMP_PROCESSOR_STATE` |
| StreamingVm.DumpLineNotCounted | myvmm.cc:88-91 | `DUMP_PROCESSOR_STATE` prints registers 1..31, changes none, and does not count |
| StreamingVm.UnknownInstructionCounts | myvmm.cc:110-168 | an unknown or wrong-arity instruction changes no register but counts toward the slice |
| StreamingVm.DumpProcessorState | myvmm.cc:34-38 | the dump lists `(i, reg[i])` for `i` from 1 to 31 in order, leaving out `$zero` |
| StreamingVm.ClassifyLine | myvmm.cc:73-91 | the head of the loop body classifies the line as `Classify` does |
| StreamingVm.HandleLine | myvmm.cc:88-168 | the rest of the loop body on the register array equals `Handle` |
| StreamingVm.StepLine | myvmm.cc:72-168 | one pass of the loop body on the `i`-th line equals `Handle` of its class |
| StreamingVm.RunStream | myvmm.cc:64-169 | the loop over the file on the register array ends where `RunLines` from all zeros ends |

## Left out

- File I/O is left out: opening and reading the configuration and program files, and the byte copy of `VMState` into and out of snapshot files. Snapshot files are an abstract store from name to `VMState`. A file that cannot be opened for writing is a name in the `unwritable` set.
- IndexedVm.Machine.Load: a snapshot file shorter than `sizeof(VMState)` is not modelled; a load either replaces the whole state or changes nothing.
- Configuration parsing (`parse_vm_config`, and the key scan in the second version's `main`) is left out. It is substring-matching plumbing. The program lines, `slice` and the optional snapshot name are inputs.
- Command-line handling and running several VMs in sequence are left out. They are orchestration only; each VM's run is `RunVm` from a fresh reset.
- Console text (`Executing PC=...`, load and save messages, the `$r`/`R` formatting of dumps) is left out. A dump is the sequence of `(index, value)` pairs it prints.
- Signed overflow of `+`, `-` and `*` on `int32_t` is undefined behaviour in every C++ standard. The model gives it the two's-complement wrap-around that mainstream compilers produce, rather than a fault.
- `<<` on a negative value, or one whose result does not fit, takes its C++20 meaning (the product modulo 2^32); earlier standards leave it undefined. The `uint32_t` to `int32_t` conversion in `srl` is likewise modular, as C++20 defines it.
- The `uint32_t` program counter is an unbounded `nat`; a program of 2^32 lines is out of scope.
- `std::stoi` is modelled in base 10 only, which is how the source calls it; locale-dependent `isspace` is the "C" locale set.
- IndexedVm.RunQuota and IndexedVm.RunCount require that no run faults and that no stored line decodes to an empty mnemonic (`NoBlankLines`). Such a line is made only of `isspace` characters (`BlankStoredLine`); it advances `pc` without counting, so the exact count is then smaller. `Dispatch` states that case, and `Run` as a whole stops at a fault.
