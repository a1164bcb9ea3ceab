# LC-3 and decimal-machine simulators in Dafny

This project models the execution cores of two small C simulators:

- **LC-3** (`LC3-Assembler.c`) is a simulator of the LC-3 educational
  instruction set. It has 65536 signed 16-bit memory cells, eight signed 16-bit
  registers, and a condition code (P = 1, Z = 2, N = 4). It runs a
  fetch-decode-execute cycle with one handler per opcode, traps for console I/O,
  and debugger commands that patch pc, registers and memory.
- **The decimal machine** (`Decimal-Assembler.c`) is in the style of the Little
  Man Computer. It has a hundred `int` memory cells and ten `int` registers.
  Instructions are decimal words `±OP R MM`. Memory is filled by a loader that
  stops at a sentinel value.

Each machine is modelled twice:

- **Pure modules** (`Lc3`, `Decimal`) hold the state as a datatype, with one
  transition function per C handler, the cycle, and runs of cycles.
- **Class modules** (`Lc3Simulator.Cpu`, `DecimalSimulator.Machine`) keep the
  memory and register file in arrays that the methods update in place. Every
  method is proved to take the object from a state `s` to the state the pure
  function gives for `s`. Loops (initialisation, loading, batch stepping,
  printing a string) carry their invariants.
- **Property modules** (`Lc3Properties`, `DecimalProperties`) state what each
  instruction does on the state before the fetch. They also state what holds
  of whole runs: the condition code stays one of P, Z, N, and once a run halts,
  later cycles change nothing. A concrete example program is worked through for
  each machine.

Shared modules:

- `Words`: 16-bit two's complement arithmetic — narrowing (`Wrap16`), sign
  extension, bitwise AND and complement.
- `ZeroTerminated`: reading a zero-terminated string out of memory.

Console input is a parameter of each cycle. A run of n cycles takes a sequence
of n input characters, and the i-th cycle uses the i-th one only if it reads
the console. Console output is returned as a sequence of integers.

Where the C code would read or write outside an array, the model takes the
in-bounds case as a precondition (`Defined`, `CanCycle`, `CanRun`) and does not
model the out-of-bounds behaviour. The one exception is the decimal loader. Its
bound `loc > memlen` lets the C store a value at `mem[100]`. The shipped loader
(`Decimal.Load`, `DecimalSimulator.Machine.InitializeMemory`) uses the corrected
bound `loc >= MEMLEN` instead of a precondition. The code as written is modelled
separately (see "## Findings").

Where the standard LC-3 instruction set and this code disagree, the model
follows the code:

- ADD-immediate assigns its result twice. When the destination is also the
  first source, the immediate is added twice. The example `0x1025` (ADD R0, R0,
  #5) with R0 = 0 leaves R0 = 10, not 5 (`Lc3Properties.AddImmediateExample`).
- ST, STR and STI set the condition code.
- LDI reads `mem[mem[offset9]]`, using the raw offset rather than
  pc + offset9.
- STI ignores its offset and writes to `mem[mem[pc]]`.
- JMP names R0-R3 by bits 7-6, overwrites that register with pc, and then
  reloads pc from it.
- JSRR indexes `reg[ir & 0x1C0]`.
- TRAP 0x24 halts, as 0x25 does.
- pc and effective addresses are not wrapped modulo 2^16.
- The loader leaves memory below the origin as it was, rather than zeroing it.

## Model

| member | source | states |
|---|---|---|
| Words.Wrap16 | LC3-Assembler.c:473-528 | storing an `int` into a `short`: the result is the only 16-bit signed value congruent to the input modulo 2^16, and equals the input when it is in range |
| Words.WrapUnique | LC3-Assembler.c:493 | Wrap16(x) is the only word congruent to x modulo 2^16 |
| Words.WrapOfSum | LC3-Assembler.c:510-515 | narrowing an intermediate sum and adding again gives the same word as narrowing once; this is why ADD-immediate's second assignment adds the immediate twice |
| Words.Unsigned16 | LC3-Assembler.c:380 | the 16-bit pattern of a word (`ir & 0xFFFF`) lies in 0..65535 and narrows back to the word |
| Words.BitAnd | LC3-Assembler.c:621-669 | bitwise AND of naturals is at most either operand |
| Words.BitAndAbsorbs | LC3-Assembler.c:634-639 | ANDing an AND result again with either operand changes nothing |
| Words.BitAndCommutes | LC3-Assembler.c:634-639 | AND is commutative |
| Words.BitAndSelf | LC3-Assembler.c:653-658 | x & x == x |
| Words.BitAndSingleBit | LC3-Assembler.c:444 | ANDing with 1, 2 or 4 keeps exactly that bit of the other operand (the P, Z, N tests of BR) |
| Words.And16 | LC3-Assembler.c:621-669 | the AND of two words has as its pattern the AND of their patterns |
| Words.AndAbsorbs | LC3-Assembler.c:634-639 | repeating AND with one of its own operands is idempotent on words |
| Words.AndCommutesAndIsIdempotent | LC3-Assembler.c:653-658 | word AND is commutative, and a & a == a |
| Words.Complement16 | LC3-Assembler.c:719-735 | `~w` has exactly the pattern bits set that w has clear, and is negative iff w is not |
| Words.SignExtend | LC3-Assembler.c:458-462 | sign extension of a width-bit field: in range, negative iff the top bit is set, and the field is the value's width-bit encoding |
| Words.SignExtendEncoding | LC3-Assembler.c:503-508 | encoding a value in width bits and sign-extending gives it back |
| ZeroTerminated.StringAtIsSlice | LC3-Assembler.c:847-856 | the string read from `from` is the memory slice up to the first zero, which lies inside memory, and contains no zero |
| ZeroTerminated.TerminatedMeansZeroAhead | LC3-Assembler.c:847-856 | the cell-by-cell termination test holds iff `from` is inside memory and some cell at or after it holds 0 |
| Lc3.Opcode | LC3-Assembler.c:380 | bits 15-12 of ir, in 0..15 |
| Lc3.Bits11To9 | LC3-Assembler.c:481 | bits 11-9, a register number 0..7 |
| Lc3.Bits8To6 | LC3-Assembler.c:482 | bits 8-6, a register number 0..7 |
| Lc3.Bits2To0 | LC3-Assembler.c:487 | bits 2-0, a register number 0..7 |
| Lc3.Bit5 | LC3-Assembler.c:475-478 | the immediate-mode bit, 0 or 1 |
| Lc3.Bit11 | LC3-Assembler.c:579 | the JSR/JSRR selector bit, 0 or 1 |
| Lc3.LowBits | LC3-Assembler.c:458 | the low width bits of ir, below 2^width |
| Lc3.Imm5 | LC3-Assembler.c:503-508 | the sign-extended 5-bit immediate, in -16..15 |
| Lc3.Offset6 | LC3-Assembler.c:678-682 | the sign-extended 6-bit offset, in -32..31 |
| Lc3.Offset9 | LC3-Assembler.c:458-462 | the sign-extended 9-bit offset, in -256..255 |
| Lc3.Offset11 | LC3-Assembler.c:585-589 | the sign-extended 11-bit offset, in -1024..1023 |
| Lc3.TrapVector | LC3-Assembler.c:827 | the trap vector, below 0x100 |
| Lc3.JmpBase | LC3-Assembler.c:790 | `(ir & 0xE0) >> 6` names only R0-R3 |
| Lc3.JsrrBase | LC3-Assembler.c:599 | the unshifted JSRR base field is a multiple of 64 below 0x200 |
| Lc3.ConditionFor | LC3-Assembler.c:112-121 | cc is exactly one of 1, 2, 4: 1 iff the result is positive, 2 iff zero, 4 iff negative |
| Lc3.Add | LC3-Assembler.c:473-528 | transition of add_instr; keeps the state well-formed (its effect is stated by Lc3Properties.CycleAdd) |
| Lc3.And | LC3-Assembler.c:621-669 | transition of and_instr; keeps the state well-formed (effect: Lc3Properties.CycleAnd) |
| Lc3.Not | LC3-Assembler.c:719-735 | transition of not_instr; keeps the state well-formed (effect: Lc3Properties.CycleNot) |
| Lc3.Ld | LC3-Assembler.c:530-552 | transition of load_instr; keeps the state well-formed (effect: Lc3Properties.CycleLd) |
| Lc3.St | LC3-Assembler.c:554-575 | transition of store_instr; keeps the state well-formed (effect: Lc3Properties.CycleSt) |
| Lc3.Jsr | LC3-Assembler.c:577-619 | transition of jump_subr_instr; keeps the state well-formed (effect: Lc3Properties.CycleJsr) |
| Lc3.Ldr | LC3-Assembler.c:671-693 | transition of ldr_instr; keeps the state well-formed (effect: Lc3Properties.CycleLdr) |
| Lc3.Str | LC3-Assembler.c:695-717 | transition of str_instr; keeps the state well-formed (effect: Lc3Properties.CycleStr) |
| Lc3.Ldi | LC3-Assembler.c:737-760 | transition of ldi_instr; keeps the state well-formed (effect: Lc3Properties.CycleLdi) |
| Lc3.Sti | LC3-Assembler.c:762-786 | transition of sti_instr; keeps the state well-formed (effect: Lc3Properties.CycleSti) |
| Lc3.Jmp | LC3-Assembler.c:788-798 | transition of jump_instr; keeps the state well-formed (effect: Lc3Properties.CycleJmp) |
| Lc3.Lea | LC3-Assembler.c:800-822 | transition of lea_instr; keeps the state well-formed (effect: Lc3Properties.CycleLea) |
| Lc3.Trap | LC3-Assembler.c:824-887 | transition of trap_instr; keeps the state well-formed (effect: Lc3Properties.CycleTrap) |
| Lc3.Execute | LC3-Assembler.c:382-425 | the opcode switch; keeps the state well-formed |
| Lc3.Fetch | LC3-Assembler.c:378-380 | the fetch; keeps the state well-formed (effect: Lc3Properties.FetchDecodesOpcode) |
| Lc3.Cycle | LC3-Assembler.c:361-426 | one_instruction_cycle; keeps the state well-formed |
| Lc3.Run | LC3-Assembler.c:428-435 | a run of cycles; keeps the state well-formed |
| Lc3.InitControlUnit | LC3-Assembler.c:137-147 | initialize_control_unit; keeps the state well-formed (effect: Lc3Properties.InitResetsControlUnit) |
| Lc3.Load | LC3-Assembler.c:163-193 | initialize_memory on the parsed origin and words; keeps the state well-formed (effect: Lc3Properties.LoadPlacesWords) |
| Lc3.RegisterPatch | LC3-Assembler.c:908-918 | register_command's update; keeps the state well-formed |
| Lc3.MemoryPatch | LC3-Assembler.c:920-930 | memory_command's update; keeps the state well-formed |
| Lc3Simulator.Cpu.constructor | LC3-Assembler.c:88 | storage for the CPU: memory and registers of their fixed sizes, every cell and register 0 (C leaves them uninitialised) |
| Lc3Simulator.Cpu.InitializeControlUnit | LC3-Assembler.c:137-147 | the register loop and the field assignments leave the CPU in InitControlUnit of its old state |
| Lc3Simulator.Cpu.InitializeMemory | LC3-Assembler.c:163-193 | the store loop and the zero-fill loop leave memory, pc and origin as Load gives them |
| Lc3Simulator.Cpu.HaltProcessor | LC3-Assembler.c:889-892 | only running changes, to false |
| Lc3Simulator.Cpu.OneInstructionCycle | LC3-Assembler.c:361-426 | the new CPU state is Cycle of the old one, and the console output is CyclePrinted |
| Lc3Simulator.Cpu.ManyInstructionCycles | LC3-Assembler.c:428-435 | n cycles give Run of the old state over the n inputs, and print RunPrinted |
| Lc3Simulator.Cpu.CycleCommand | LC3-Assembler.c:345-352 | a refused count changes nothing and prints nothing; an accepted count n runs n cycles |
| Lc3Simulator.Cpu.BranchInstr | LC3-Assembler.c:437-471 | the CPU state becomes Br of the old one |
| Lc3Simulator.Cpu.AddInstr | LC3-Assembler.c:473-528 | the CPU state becomes Add of the old one |
| Lc3Simulator.Cpu.AndInstr | LC3-Assembler.c:621-669 | the CPU state becomes And of the old one |
| Lc3Simulator.Cpu.NotInstr | LC3-Assembler.c:719-735 | the CPU state becomes Not of the old one |
| Lc3Simulator.Cpu.LoadInstr | LC3-Assembler.c:530-552 | the CPU state becomes Ld of the old one |
| Lc3Simulator.Cpu.StoreInstr | LC3-Assembler.c:554-575 | the CPU state becomes St of the old one |
| Lc3Simulator.Cpu.JumpSubrInstr | LC3-Assembler.c:577-619 | the CPU state becomes Jsr of the old one |
| Lc3Simulator.Cpu.LdrInstr | LC3-Assembler.c:671-693 | the CPU state becomes Ldr of the old one |
| Lc3Simulator.Cpu.StrInstr | LC3-Assembler.c:695-717 | the CPU state becomes Str of the old one |
| Lc3Simulator.Cpu.LdiInstr | LC3-Assembler.c:737-760 | the CPU state becomes Ldi of the old one |
| Lc3Simulator.Cpu.StiInstr | LC3-Assembler.c:762-786 | the CPU state becomes Sti of the old one |
| Lc3Simulator.Cpu.JumpInstr | LC3-Assembler.c:788-798 | the CPU state becomes Jmp of the old one |
| Lc3Simulator.Cpu.LeaInstr | LC3-Assembler.c:800-822 | the CPU state becomes Lea of the old one |
| Lc3Simulator.Cpu.TrapInstr | LC3-Assembler.c:824-887 | the CPU state becomes Trap of the old one with the input character, and the output is TrapPrinted |
| Lc3Simulator.Cpu.Puts | LC3-Assembler.c:847-856 | the PUTS loop returns exactly the zero-terminated string at R0 |
| Lc3Simulator.Cpu.JumpCommand | LC3-Assembler.c:894-906 | pc is set to the address, and the CPU runs again |
| Lc3Simulator.Cpu.RegisterCommand | LC3-Assembler.c:908-918 | only the named register changes, to the narrowed value |
| Lc3Simulator.Cpu.MemoryCommand | LC3-Assembler.c:920-930 | only the named cell changes, to the narrowed value |
| Lc3Properties.InitResetsControlUnit | LC3-Assembler.c:137-147 | after initialisation: pc = 0, ir = 0, running, cc = 2, all eight registers 0, memory untouched |
| Lc3Properties.CycleKeepsConditionCode | LC3-Assembler.c:112-121 | every cycle leaves a cc of 1, 2 or 4 as one of 1, 2, 4 |
| Lc3Properties.RunKeepsConditionCode | LC3-Assembler.c:428-435 | so does any run of cycles |
| Lc3Properties.ConditionCodeAfterInitAndRun | LC3-Assembler.c:137-147 | after initialisation and any run, cc is exactly one of P, Z, N |
| Lc3Properties.HaltedCycleChangesNothing | LC3-Assembler.c:364-367 | a cycle with running == 0 changes no state and prints nothing |
| Lc3Properties.HaltedRunChangesNothing | LC3-Assembler.c:428-435 | any number of cycles of a halted CPU change nothing |
| Lc3Properties.CanRunConcatenates | LC3-Assembler.c:428-435 | a run of xs + ys is defined iff the run of xs is and the run of ys from where it stopped is |
| Lc3Properties.RunStateConcatenates | LC3-Assembler.c:428-435 | a defined run of xs + ys ends where running ys from the end of the run of xs ends |
| Lc3Properties.RunPrintedConcatenates | LC3-Assembler.c:428-435 | a defined run of xs + ys prints what the run of xs prints, then what the run of ys from there prints |
| Lc3Properties.RunConcatenates | LC3-Assembler.c:428-435 | running xs then ys is running xs + ys, in state, definedness and output |
| Lc3Properties.RunStaysHalted | LC3-Assembler.c:428-435 | once the first k cycles halt the CPU, the remaining cycles leave everything fixed |
| Lc3Properties.FetchDecodesOpcode | LC3-Assembler.c:378-380 | ir = mem[old pc], pc = old pc + 1, the opcode is bits 15-12 in 0..15, nothing else changes |
| Lc3Properties.UnsupportedOpcodesHalt | LC3-Assembler.c:400-416 | opcodes 0x8 and 0xD set running = 0 and change no register, cell or cc |
| Lc3Properties.CycleBr | LC3-Assembler.c:437-471 | pc moves by sext9 exactly when the word is nonzero and cc & nzp != 0; registers, memory and cc unchanged |
| Lc3Properties.ZeroWordNeverBranches | LC3-Assembler.c:439-444 | the zero word has an empty mask and never branches |
| Lc3Properties.BranchFollowsSign | LC3-Assembler.c:444 | with cc set from a result, the branch is taken iff the N, Z or P bit of the mask matches the result's sign |
| Lc3Properties.CycleJsr | LC3-Assembler.c:577-619 | JSR: R7 = old pc, pc += sext11; JSRR with base field 0: R7 = old pc, pc = R0 |
| Lc3Properties.JsrrBaseNeverSeven | LC3-Assembler.c:599-601 | the unshifted base is 64 times the field, never 7, and inside reg[] iff the field is 0 |
| Lc3Properties.CycleAdd | LC3-Assembler.c:473-528 | register mode: dst = Wrap16(src1 + src2); immediate: Wrap16(src1 + imm5), or Wrap16(src1 + 2 * imm5) when dst == src1; cc follows dst; nothing else changes |
| Lc3Properties.AddImmediateExample | LC3-Assembler.c:510-515 | 0x1025 loaded at 0x3000 after initialisation gives R0 = 10, pc = 0x3001, cc = P |
| Lc3Properties.CycleAnd | LC3-Assembler.c:621-669 | dst = src1 & operand even when dst aliases a source; cc follows it |
| Lc3Properties.CycleNot | LC3-Assembler.c:719-735 | dst = ~src, whose pattern is the complement; cc follows it |
| Lc3Properties.NotOfZeroExample | LC3-Assembler.c:719-735 | NOT of 0 gives -1 with cc = 4 |
| Lc3Properties.CycleLea | LC3-Assembler.c:800-822 | dst = Wrap16(pc + sext9), cc follows it, memory untouched |
| Lc3Properties.CycleLd | LC3-Assembler.c:530-552 | dst = mem[pc + sext9], cc follows it, no other register changes |
| Lc3Properties.CycleSt | LC3-Assembler.c:554-575 | mem[pc + sext9] = src, cc set from src, no register changes |
| Lc3Properties.CycleLdr | LC3-Assembler.c:671-693 | dst = mem[base + sext6], cc follows it, no other register changes |
| Lc3Properties.CycleStr | LC3-Assembler.c:695-717 | mem[base + sext6] = src, cc set from src |
| Lc3Properties.CycleLdi | LC3-Assembler.c:737-760 | dst = mem[mem[sext9]], cc follows it |
| Lc3Properties.CycleSti | LC3-Assembler.c:762-786 | mem[mem[pc]] = src; cc from src, or from the cell the overwritten pointer names |
| Lc3Properties.CycleJmp | LC3-Assembler.c:788-798 | reg[bits 7-6] = Wrap16(pc) and pc = Wrap16(pc); memory and cc unchanged |
| Lc3Properties.CycleTrap | LC3-Assembler.c:824-887 | R7 = Wrap16(pc), pc = R7; 0x24/0x25 halt; 0x20/0x23 also set R0 to the input; no other change |
| Lc3Properties.CyclePrints | LC3-Assembler.c:842-856 | OUT prints R0, PUTS prints the memory from R0 to the first zero, nothing else prints |
| Lc3Properties.LoadPlacesWords | LC3-Assembler.c:163-193 | words land from the origin on, narrowed; cells after them are 0; cells below the origin are kept; pc = origin; registers, cc, running, ir and opcode unchanged |
| Lc3Properties.LoadThenFetch | LC3-Assembler.c:163-193 | the first fetch after loading reads the first word |
| Lc3Properties.CycleCountBounds | LC3-Assembler.c:345-346 | a count is accepted iff 1 <= n and pc + n - 1 < MEMLEN |
| Lc3Properties.JumpPatchResumes | LC3-Assembler.c:894-906 | jump_command restarts the CPU and its next fetch reads the given address |
| Lc3Properties.PatchesChangeOnlyTheirTarget | LC3-Assembler.c:908-930 | register and memory patches change exactly their target, to the narrowed value |
| Decimal.Sign | Decimal-Assembler.c:331-337 | -1 for a negative word, 1 for a positive one |
| Decimal.Signed | Decimal-Assembler.c:374-381 | `addr_MM * instr_sign` is MM for a positive word and -MM for a negative one |
| Decimal.Magnitude | Decimal-Assembler.c:332-335 | the word or its negation, never negative |
| Decimal.RegisterOf | Decimal-Assembler.c:341 | the hundreds digit names one of the ten registers |
| Decimal.AddressOf | Decimal-Assembler.c:342 | the last two digits name one of the hundred cells |
| Decimal.Fetch | Decimal-Assembler.c:328-337 | the fetch keeps the state well-formed and ir non-negative |
| Decimal.Execute | Decimal-Assembler.c:347-436 | the opcode switch keeps the state well-formed (effect: the DecimalProperties.Cycle lemmas) |
| Decimal.Cycle | Decimal-Assembler.c:310-437 | one_instruction_cycle keeps the state well-formed |
| Decimal.Run | Decimal-Assembler.c:291-308 | a run of cycles keeps the state well-formed |
| Decimal.HaltedRunChangesNothing | Decimal-Assembler.c:316-319 | any number of cycles of a halted machine change nothing and print nothing |
| Decimal.CycleAdvancesRun | Decimal-Assembler.c:303-306 | a defined run over inputs[i..n] is the cycle reading inputs[i], then a defined run over inputs[i+1..n], in state and in output after what was printed before |
| Decimal.InitControlUnit | Decimal-Assembler.c:83-96 | initialize_control_unit keeps the state well-formed (effect: DecimalProperties.InitResetsControlUnit) |
| Decimal.LeadingInRange | Decimal-Assembler.c:125-127 | the number of values before the first one outside -9999..9999 |
| Decimal.StoredCount | Decimal-Assembler.c:110-132 | the loading loop stops between its start and the end of the values |
| Decimal.StoredCountStopsAtFirstBound | Decimal-Assembler.c:110-132 | the loop stops at the first sentinel, the end of the values or location limit + 1, whichever comes first |
| Decimal.StoredCountAsWritten | Decimal-Assembler.c:122 | with the test `loc > memlen` the loop stores min(leading in-range values, 101) values |
| Decimal.LoaderOverrunsMemory | Decimal-Assembler.c:122-129 | 101 zero values make the as-written loop store a 101st value, at mem[100] |
| Decimal.StoredCountCorrected | Decimal-Assembler.c:110-132 | with the test `loc >= memlen` the loop stores min(leading in-range values, 100) values |
| Decimal.LoaderBoundsAgreeInMemory | Decimal-Assembler.c:122 | whenever the as-written loop stays inside memory it stores what the corrected one does, and it overruns iff more than 100 leading values are in range |
| Decimal.LoadedMemory | Decimal-Assembler.c:108-141 | memory after loading has 100 cells |
| Decimal.Load | Decimal-Assembler.c:108-141 | loading keeps the state well-formed |
| DecimalSimulator.Machine.constructor | Decimal-Assembler.c:31-35 | the zero-initialised globals: all cells and registers 0, pc and ir 0, not running |
| DecimalSimulator.Machine.InitializeControlUnit | Decimal-Assembler.c:83-96 | the register loop and assignments give InitControlUnit of the old state |
| DecimalSimulator.Machine.InitializeMemory | Decimal-Assembler.c:108-141 | the loading loop and the zero-fill loop leave memory equal to LoadedMemory(values) |
| DecimalSimulator.Machine.ExecHlt | Decimal-Assembler.c:439-443 | only running changes, to false |
| DecimalSimulator.Machine.PrintString | Decimal-Assembler.c:412-417 | the print-string loop returns exactly the zero-terminated string at MM |
| DecimalSimulator.Machine.FetchInstruction | Decimal-Assembler.c:327-337 | ir, pc and nothing else become Fetch of the old state, and the returned sign is the sign of the fetched word |
| DecimalSimulator.Machine.ExecuteInstruction | Decimal-Assembler.c:339-436 | the switch gives Execute of the old state with that sign and input, and prints Printed of the old state |
| DecimalSimulator.Machine.OneInstructionCycle | Decimal-Assembler.c:310-437 | the new state is Cycle of the old one, and the output is CyclePrinted |
| DecimalSimulator.Machine.ManyInstructionCycles | Decimal-Assembler.c:291-308 | a count below 1 changes nothing; otherwise the early-exit loop gives Run of the old state over the n inputs and prints RunPrinted |
| DecimalSimulator.Machine.CycleCommand | Decimal-Assembler.c:234-242 | a refused count changes nothing and prints nothing; an accepted count n runs n cycles |
| DecimalProperties.InitResetsControlUnit | Decimal-Assembler.c:83-96 | all ten registers 0, pc = 0, ir = 0, running, memory untouched |
| DecimalProperties.LoaderPlacesValues | Decimal-Assembler.c:108-141 | cells 0.. hold the leading in-range values in order (at most 100 of them), every later cell is 0, and every cell is within -9999..9999 |
| DecimalProperties.LoadedWordsHaveValidOpcodes | Decimal-Assembler.c:125-129 | every loaded word decodes to an opcode 0..9 |
| DecimalProperties.FetchDecodes | Decimal-Assembler.c:328-342 | pc = old pc + 1, ir is the magnitude of w, ir = 1000 OP + 100 R + MM, and sign times ir is w |
| DecimalProperties.DecodeOfEncoding | Decimal-Assembler.c:340-342 | decoding 1000 OP + 100 R + MM gives OP, R and MM back |
| DecimalProperties.CycleHalt | Decimal-Assembler.c:349-351 | opcode 0 sets running = 0 and changes no register or cell |
| DecimalProperties.CycleRegisterOps | Decimal-Assembler.c:354-382 | opcodes 1, 3-6 set only reg[R], to mem[MM], reg[R] + mem[MM], -reg[R], ±MM, reg[R] ± MM |
| DecimalProperties.CycleStore | Decimal-Assembler.c:359-362 | opcode 2 sets only mem[MM] = reg[R] |
| DecimalProperties.CycleJumpAndBranch | Decimal-Assembler.c:384-394 | opcode 7 sets pc = MM; opcode 8 does so iff reg[R] and the word are both positive or both negative |
| DecimalProperties.ZeroRegisterNeverBranches | Decimal-Assembler.c:389-394 | a zero register never branches |
| DecimalProperties.CycleIo | Decimal-Assembler.c:397-433 | service 0 sets reg[0] to the input; other services change nothing beyond the fetch |
| DecimalProperties.CyclePrints | Decimal-Assembler.c:406-417 | service 1 prints R0, service 2 prints the memory from MM to the first zero, nothing else prints |
| DecimalProperties.CycleBadOpcode | Decimal-Assembler.c:434-435 | an opcode of 10 or more changes only pc and ir, and the machine keeps running |
| DecimalProperties.HaltedCycleChangesNothing | Decimal-Assembler.c:316-319 | a cycle with running == 0 changes nothing |
| DecimalProperties.CanRunConcatenates | Decimal-Assembler.c:291-308 | a run of xs + ys is defined iff the run of xs is and the run of ys from where it stopped is |
| DecimalProperties.RunStateConcatenates | Decimal-Assembler.c:291-308 | a defined run of xs + ys ends where running ys from the end of the run of xs ends |
| DecimalProperties.RunPrintedConcatenates | Decimal-Assembler.c:291-308 | a defined run of xs + ys prints what the run of xs prints, then what the run of ys from there prints |
| DecimalProperties.RunConcatenates | Decimal-Assembler.c:291-308 | running xs then ys is running xs + ys, in state, definedness and output |
| DecimalProperties.RunStopsAtHalt | Decimal-Assembler.c:304-306 | once the first k cycles halt the machine, running all n gives the state and output after k |
| DecimalProperties.CycleCountBounds | Decimal-Assembler.c:234-236 | a count is accepted iff 1 <= n <= 100 and n <= 100 - pc |
| DecimalProperties.ExampleProgram | Decimal-Assembler.c:310-437 | 5105, 6103, 2150, 0 loaded and run for four cycles leave 8 in cell 50 and R1, halted at pc 4 |

## Left out

- DecimalSimulator.Machine.InitializeMemory, Decimal.Load: both use the corrected bound `loc >= MEMLEN`. The as-written out-of-bounds store at `mem[100]` is not modelled; `Decimal.StoredCountAsWritten` and `Decimal.LoaderOverrunsMemory` state only how many values the as-written loop would store.
- File opening and line parsing in both loaders are not modelled: the model
  starts from the parsed origin and words (LC-3) or the parsed integers
  (decimal). Junk lines that do not start with an integer are skipped before
  that point.
- The console loop (`read_execute_command`, `execute_command`) is not modelled.
  Only its cycle-count test and the cycle dispatch are (`CycleCommand`). The
  `sscanf` parsing of the patch commands is left out too.
- All printing is left out: dumps, help, and per-instruction trace lines. So is
  `generateCondition`, which only sets a character for the trace.
- Console characters are parameters. The LC-3's `scanf("%c")` gives a signed
  `char`; the decimal machine's `getchar` gives -1..255. An LC-3 end of input is
  not modelled. There R0 would receive the local `input`, which `scanf` never
  wrote, so its value is indeterminate.
- Output is returned as the list of printed values. Character conversion and
  formatting are not modelled.
- Behaviour the C code leaves undefined is excluded by preconditions:
  - a fetch at pc >= MEMLEN (the guard halts but then fetches anyway);
  - LD/ST/LDR/STR addresses outside memory;
  - LDI/STI pointers outside memory;
  - JSRR with a nonzero base field;
  - PUTS or decimal print-string with no terminating zero;
  - an LC-3 load that overflows memory;
  - register_command with a register number outside 0..7.
  - memory_command with an address outside memory.
- The LC-3 `CPU` storage is uninitialised in C. The model's constructor zeroes
  it, and the loader keeps the cells below the origin as they were.
- Lc3.Add, Lc3.And and the other Lc3 and Decimal transition functions: each
  one's own contract only keeps the state well-formed. What each does is stated
  by the Lc3Properties and DecimalProperties lemmas.
- Decimal.Execute: does not model `int` overflow. Registers and cells are
  unbounded, and sums and negations are taken to stay within C's `int`.
- Lc3Simulator.Cpu.CycleCommand and DecimalSimulator.Machine.CycleCommand: the
  run is fed one input per cycle, taken as a parameter.

## Findings

| source | as written | input that shows it | evidently intended | confidence | as-written member | corrected member |
|---|---|---|---|---|---|---|
| Decimal-Assembler.c:122 | the memory test `loc > memlen` lets loc reach 100 and stores a value at `mem[100]`, one past the end of memory | a file of 101 lines each holding `0` | stop loading once memory is full (`loc >= memlen`), so at most 100 values are stored | high, not executed | Decimal.LoaderOverrunsMemory | Decimal.StoredCountCorrected |
