/** The LC-3 simulator's CPU as a state machine: the state of the `CPU` struct, the
    decoding of a fetched word into its fields, one transition function per
    instruction handler, the fetch-decode-execute cycle and a run of several cycles.

    Each handler function takes the state right after the fetch (`ir` holds the
    instruction, `pc` has already been incremented, `opcode` is set) and gives the
    state the C handler leaves behind. Where the C code would index outside
    `mem[]` or `reg[]`, the handler's `...Defined` predicate excludes that state. */
module Lc3 {
  import opened Words
  import opened ZeroTerminated

  /** Number of memory cells. */
  const MEMLEN: int := 0x10000
  /** Number of general-purpose registers. */
  const NREG: int := 8

  /** A character read with `scanf("%c")` into a (signed) `char`. */
  type Char = c: int | -0x80 <= c < 0x80

  /** The `CPU` struct, without the debug-only `condition` character. `running` is
      the C int flag, which only ever holds 1 (true) or 0 (false). */
  datatype State = State(
    mem: seq<Word>,
    reg: seq<Word>,
    pc: int,
    running: bool,
    cc: int,
    ir: Word,
    opcode: int,
    origin: nat)

  /** The memory and register file have their fixed sizes. */
  predicate Wf(s: State) {
    |s.mem| == MEMLEN && |s.reg| == NREG
  }

  // ---------------------------------------------------------------------------
  // Decoding: every field is taken from the 16-bit pattern of `ir`.

  /** `(ir & 0xF000) >> 12`: bits 15-12. */
  function Opcode(ir: Word): (op: nat)
    ensures op < 16
  {
    Unsigned16(ir) / 0x1000
  }

  /** `(ir & 0x0E00) >> 9`: bits 11-9 (destination, source of a store, or nzp). */
  function Bits11To9(ir: Word): (f: nat)
    ensures f < 8
  {
    Unsigned16(ir) / 0x200 % 8
  }

  /** `(ir & 0x01C0) >> 6`: bits 8-6 (first source or base register). */
  function Bits8To6(ir: Word): (f: nat)
    ensures f < 8
  {
    Unsigned16(ir) / 0x40 % 8
  }

  /** `ir & 7`: bits 2-0 (second source register). */
  function Bits2To0(ir: Word): (f: nat)
    ensures f < 8
  {
    Unsigned16(ir) % 8
  }

  /** `(ir & 0x20) >> 5`: bit 5, the immediate-mode flag of ADD and AND. */
  function Bit5(ir: Word): (b: nat)
    ensures b < 2
  {
    Unsigned16(ir) / 0x20 % 2
  }

  /** `(ir & 0x800) >> 11`: bit 11, which selects JSR over JSRR. */
  function Bit11(ir: Word): (b: nat)
    ensures b < 2
  {
    Unsigned16(ir) / 0x800 % 2
  }

  /** `ir & (2^width - 1)`: the low width bits. */
  function LowBits(ir: Word, width: nat): (f: nat)
    ensures f < Pow2(width)
  {
    Unsigned16(ir) % Pow2(width)
  }

  /** The immediate operand of ADD and AND: bits 4-0, sign-extended. */
  function Imm5(ir: Word): (v: int)
    ensures -16 <= v < 16
  {
    SignExtend(LowBits(ir, 5), 5)
  }

  /** The offset of LDR and STR: bits 5-0, sign-extended. */
  function Offset6(ir: Word): (v: int)
    ensures -32 <= v < 32
  {
    SignExtend(LowBits(ir, 6), 6)
  }

  /** The PC-relative offset of BR, LD, ST, LDI, STI and LEA: bits 8-0, sign-extended. */
  function Offset9(ir: Word): (v: int)
    ensures -256 <= v < 256
  {
    SignExtend(LowBits(ir, 9), 9)
  }

  /** The PC-relative offset of JSR: bits 10-0, sign-extended. */
  function Offset11(ir: Word): (v: int)
    ensures -1024 <= v < 1024
  {
    SignExtend(LowBits(ir, 11), 11)
  }

  /** `ir & 0xFF`: the trap vector. */
  function TrapVector(ir: Word): (v: nat)
    ensures v < 0x100
  {
    LowBits(ir, 8)
  }

  /** `(ir & 0xE0) >> 6`: the JMP base register. Bit 5 is masked in but shifted out,
      so this is bits 7-6 and only R0-R3 can be named. */
  function JmpBase(ir: Word): (b: nat)
    ensures b < 4
  {
    Unsigned16(ir) % 0x100 / 0x40
  }

  /** `ir & 0x1C0`, never shifted: the JSRR base field left in place, so it is a
      multiple of 64 and only 0 names a register. */
  function JsrrBase(ir: Word): (b: nat)
    ensures b % 0x40 == 0 && b < 0x200
  {
    Unsigned16(ir) % 0x200 / 0x40 * 0x40
  }

  // ---------------------------------------------------------------------------
  // Condition-code unit.

  /** calculateCondition: P (1) for a positive result, Z (2) for zero, N (4) for a
      negative one. */
  function ConditionFor(result: int): (cc: int)
    ensures cc == 1 || cc == 2 || cc == 4
    ensures cc == 1 <==> result > 0
    ensures cc == 2 <==> result == 0
    ensures cc == 4 <==> result < 0
  {
    if result > 0 then 1 else if result == 0 then 2 else 4
  }

  /** `(cc & nzp) != 0`. Only the low three bits of cc can meet a three-bit mask, and
      `cc % 8` is exactly those bits, for a negative cc too. */
  predicate BranchTaken(cc: int, nzp: nat) {
    BitAnd(cc % 8, nzp) != 0
  }

  // ---------------------------------------------------------------------------
  // Instruction handlers, on the state right after the fetch.

  /** branch_instr: a zero word is a no-op; otherwise pc moves by the offset exactly
      when the condition code meets the nzp mask. */
  function Br(s: State): State {
    if s.ir == 0 then s
    else if BranchTaken(s.cc, Bits11To9(s.ir)) then s.(pc := s.pc + Offset9(s.ir))
    else s
  }

  /** add_instr. In immediate mode the sum is assigned twice, the second time reading
      the source register again, which the first assignment has changed when it is
      also the destination. */
  function Add(s: State): (r: State)
    requires Wf(s)
    ensures Wf(r)
  {
    var dst, src1 := Bits11To9(s.ir), Bits8To6(s.ir);
    if Bit5(s.ir) == 0 then
      var sum := Wrap16(s.reg[src1] as int + s.reg[Bits2To0(s.ir)]);
      s.(reg := s.reg[dst := sum], cc := ConditionFor(sum))
    else
      var imm := Imm5(s.ir);
      var first := s.reg[dst := Wrap16(s.reg[src1] + imm)];
      var second := first[dst := Wrap16(first[src1] + imm)];
      s.(reg := second, cc := ConditionFor(second[dst]))
  }

  /** and_instr. Both modes assign twice, the second time with the operands read
      again. */
  function And(s: State): (r: State)
    requires Wf(s)
    ensures Wf(r)
  {
    var dst, src1 := Bits11To9(s.ir), Bits8To6(s.ir);
    if Bit5(s.ir) == 0 then
      var src2 := Bits2To0(s.ir);
      var first := s.reg[dst := And16(s.reg[src2], s.reg[src1])];
      var second := first[dst := And16(first[src1], first[src2])];
      s.(reg := second, cc := ConditionFor(second[dst]))
    else
      var imm := Imm5(s.ir);
      var first := s.reg[dst := And16(s.reg[src1], imm)];
      var second := first[dst := And16(first[src1], imm)];
      s.(reg := second, cc := ConditionFor(second[dst]))
  }

  /** not_instr: the bitwise complement of the source register. */
  function Not(s: State): (r: State)
    requires Wf(s)
    ensures Wf(r)
  {
    var v := Complement16(s.reg[Bits8To6(s.ir)]);
    s.(reg := s.reg[Bits11To9(s.ir) := v], cc := ConditionFor(v))
  }

  /** The effective address `pc + offset9` of LD and ST. */
  function PcRelative(s: State): int {
    s.pc + Offset9(s.ir)
  }

  /** LD and ST index memory with pc + offset9, which the C code does not wrap. */
  predicate PcRelativeDefined(s: State) {
    0 <= PcRelative(s) < MEMLEN
  }

  /** load_instr. */
  function Ld(s: State): (r: State)
    requires Wf(s) && PcRelativeDefined(s)
    ensures Wf(r)
  {
    var v := s.mem[PcRelative(s)];
    s.(reg := s.reg[Bits11To9(s.ir) := v], cc := ConditionFor(v))
  }

  /** store_instr. Unlike the ISA, it also sets the condition code from the stored
      register. */
  function St(s: State): (r: State)
    requires Wf(s) && PcRelativeDefined(s)
    ensures Wf(r)
  {
    var v := s.reg[Bits11To9(s.ir)];
    s.(mem := s.mem[PcRelative(s) := v], cc := ConditionFor(v))
  }

  /** JSRR reads `reg[ir & 0x1C0]`, inside the register file only for a base field of 0. */
  predicate JsrDefined(s: State) {
    Bit11(s.ir) == 1 || JsrrBase(s.ir) < NREG
  }

  /** jump_subr_instr. JSR links R7 and moves pc by offset11; JSRR links R7 and jumps
      to the base register. The source's `base == 7` branch cannot be taken, since
      the base is never shifted down (see Lc3Properties.JsrrBaseNeverSeven). */
  function Jsr(s: State): (r: State)
    requires Wf(s) && JsrDefined(s)
    ensures Wf(r)
  {
    var linked := s.reg[7 := Wrap16(s.pc)];
    if Bit11(s.ir) == 1 then
      s.(reg := linked, pc := s.pc + Offset11(s.ir))
    else
      s.(reg := linked, pc := linked[JsrrBase(s.ir)])
  }

  /** The effective address `reg[base] + offset6` of LDR and STR. */
  function BaseRelative(s: State): int
    requires Wf(s)
  {
    s.reg[Bits8To6(s.ir)] + Offset6(s.ir)
  }

  predicate BaseRelativeDefined(s: State)
    requires Wf(s)
  {
    0 <= BaseRelative(s) < MEMLEN
  }

  /** ldr_instr. */
  function Ldr(s: State): (r: State)
    requires Wf(s) && BaseRelativeDefined(s)
    ensures Wf(r)
  {
    var v := s.mem[BaseRelative(s)];
    s.(reg := s.reg[Bits11To9(s.ir) := v], cc := ConditionFor(v))
  }

  /** str_instr. The condition code is set from the cell just written, read back
      through the same address. */
  function Str(s: State): (r: State)
    requires Wf(s) && BaseRelativeDefined(s)
    ensures Wf(r)
  {
    var a := BaseRelative(s);
    var mem := s.mem[a := s.reg[Bits11To9(s.ir)]];
    s.(mem := mem, cc := ConditionFor(mem[a]))
  }

  /** halt_processor, used for RTI, the reserved opcode and the halting traps. */
  function Halt(s: State): State {
    s.(running := false)
  }

  /** LDI reads `mem[mem[offset9]]`: the raw offset is the first address. */
  predicate LdiDefined(s: State)
    requires Wf(s)
  {
    0 <= Offset9(s.ir) && 0 <= s.mem[Offset9(s.ir)]
  }

  /** ldi_instr: double indirection through the sign-extended offset itself, not
      through pc + offset. */
  function Ldi(s: State): (r: State)
    requires Wf(s) && LdiDefined(s)
    ensures Wf(r)
  {
    var v := s.mem[s.mem[Offset9(s.ir)]];
    s.(reg := s.reg[Bits11To9(s.ir) := v], cc := ConditionFor(v))
  }

  /** The memory after STI's store `mem[mem[pc]] = reg[src]`. */
  function StiStore(s: State): seq<Word>
    requires Wf(s) && 0 <= s.pc < MEMLEN && 0 <= s.mem[s.pc]
  {
    s.mem[s.mem[s.pc] := s.reg[Bits11To9(s.ir)]]
  }

  /** STI writes to `mem[mem[pc]]` and then reads `mem[mem[pc]]` again for the
      condition code; both indices must lie in memory. */
  predicate StiDefined(s: State)
    requires Wf(s)
  {
    0 <= s.pc < MEMLEN && 0 <= s.mem[s.pc] && 0 <= StiStore(s)[s.pc]
  }

  /** sti_instr: the offset is ignored; the pointer is the word at pc. The condition
      code comes from `mem[mem[pc]]` read after the store, which is another cell when
      the store overwrote the pointer itself. */
  function Sti(s: State): (r: State)
    requires Wf(s) && StiDefined(s)
    ensures Wf(r)
  {
    var mem := StiStore(s);
    s.(mem := mem, cc := ConditionFor(mem[mem[s.pc]]))
  }

  /** jump_instr: the base register is overwritten with pc, and pc is then loaded from
      it, so pc only passes through a 16-bit narrowing. */
  function Jmp(s: State): (r: State)
    requires Wf(s)
    ensures Wf(r)
  {
    var base := JmpBase(s.ir);
    var reg := s.reg[base := Wrap16(s.pc)];
    s.(reg := reg, pc := reg[base])
  }

  /** lea_instr: the address itself, narrowed, goes to the destination. */
  function Lea(s: State): (r: State)
    requires Wf(s)
    ensures Wf(r)
  {
    var v := Wrap16(s.pc + Offset9(s.ir));
    s.(reg := s.reg[Bits11To9(s.ir) := v], cc := ConditionFor(v))
  }

  /** PUTS reads memory from R0 up to a zero cell, with no bound of its own. */
  predicate TrapDefined(s: State)
    requires Wf(s)
  {
    TrapVector(s.ir) == 0x22 ==> Terminated(s.mem, s.reg[0])
  }

  /** trap_instr: R7 takes the return address; GETC (0x20) and IN (0x23) put the
      character read into R0; 0x24 and HALT (0x25) stop the CPU; OUT, PUTS and
      unknown vectors change no state. Finally pc is reloaded from R7. */
  function Trap(s: State, input: Char): (r: State)
    requires Wf(s)
    ensures Wf(r)
  {
    var linked := s.reg[7 := Wrap16(s.pc)];
    var vector := TrapVector(s.ir);
    var t :=
      if vector == 0x20 || vector == 0x23 then s.(reg := linked[0 := input])
      else if vector == 0x24 || vector == 0x25 then Halt(s.(reg := linked))
      else s.(reg := linked);
    t.(pc := t.reg[7])
  }

  /** The handler of the fetched opcode has defined behaviour. */
  predicate Defined(s: State)
    requires Wf(s)
  {
    match s.opcode
    case 0x2 => PcRelativeDefined(s)
    case 0x3 => PcRelativeDefined(s)
    case 0x4 => JsrDefined(s)
    case 0x6 => BaseRelativeDefined(s)
    case 0x7 => BaseRelativeDefined(s)
    case 0xA => LdiDefined(s)
    case 0xB => StiDefined(s)
    case 0xF => TrapDefined(s)
    case _ => true
  }

  /** The switch of one_instruction_cycle. */
  function Execute(s: State, input: Char): (r: State)
    requires Wf(s) && Defined(s)
    ensures Wf(r)
  {
    match s.opcode
    case 0x0 => Br(s)
    case 0x1 => Add(s)
    case 0x2 => Ld(s)
    case 0x3 => St(s)
    case 0x4 => Jsr(s)
    case 0x5 => And(s)
    case 0x6 => Ldr(s)
    case 0x7 => Str(s)
    case 0x8 => Halt(s)
    case 0x9 => Not(s)
    case 0xA => Ldi(s)
    case 0xB => Sti(s)
    case 0xC => Jmp(s)
    case 0xD => Halt(s)
    case 0xE => Lea(s)
    case 0xF => Trap(s, input)
    case _ => s
  }

  /** What trap_instr writes to the console: OUT prints R0, PUTS the zero-terminated
      string at the address in R0. */
  function TrapPrinted(s: State): seq<int>
    requires Wf(s) && TrapDefined(s)
  {
    if TrapVector(s.ir) == 0x21 then [s.reg[0] as int]
    else if TrapVector(s.ir) == 0x22 then StringAt(s.mem, s.reg[0])
    else []
  }

  /** What the executed instruction writes to the console. */
  function Printed(s: State): seq<int>
    requires Wf(s) && Defined(s)
  {
    if s.opcode == 0xF then TrapPrinted(s) else []
  }

  // ---------------------------------------------------------------------------
  // The cycle and runs of cycles.

  /** The fetch: `ir = mem[pc++]`, and the opcode is taken from ir. */
  function Fetch(s: State): (r: State)
    requires Wf(s) && 0 <= s.pc < MEMLEN
    ensures Wf(r)
  {
    var w := s.mem[s.pc];
    s.(ir := w, pc := s.pc + 1, opcode := Opcode(w))
  }

  /** A cycle from s has defined behaviour: a halted CPU does nothing; a running one
      fetches inside memory and executes a defined instruction. */
  predicate CanCycle(s: State)
    requires Wf(s)
  {
    !s.running || (0 <= s.pc < MEMLEN && Defined(Fetch(s)))
  }

  /** one_instruction_cycle. */
  function Cycle(s: State, input: Char): (r: State)
    requires Wf(s) && CanCycle(s)
    ensures Wf(r)
  {
    if !s.running then s else Execute(Fetch(s), input)
  }

  /** What one_instruction_cycle writes to the console. */
  function CyclePrinted(s: State): seq<int>
    requires Wf(s) && CanCycle(s)
  {
    if !s.running then [] else Printed(Fetch(s))
  }

  /** Every cycle of a run with these console inputs has defined behaviour. */
  predicate CanRun(s: State, inputs: seq<Char>)
    requires Wf(s)
    decreases |inputs|
  {
    |inputs| == 0 || (CanCycle(s) && CanRun(Cycle(s, inputs[0]), inputs[1..]))
  }

  /** |inputs| cycles, the i-th one reading inputs[i] if it reads the console. */
  function Run(s: State, inputs: seq<Char>): (r: State)
    requires Wf(s) && CanRun(s, inputs)
    ensures Wf(r)
    decreases |inputs|
  {
    if |inputs| == 0 then s else Run(Cycle(s, inputs[0]), inputs[1..])
  }

  /** Everything a run writes to the console, in order. */
  function RunPrinted(s: State, inputs: seq<Char>): seq<int>
    requires Wf(s) && CanRun(s, inputs)
    decreases |inputs|
  {
    if |inputs| == 0 then []
    else CyclePrinted(s) + RunPrinted(Cycle(s, inputs[0]), inputs[1..])
  }

  // ---------------------------------------------------------------------------
  // Initialisation, loading, the console's cycle count and patch commands.

  /** initialize_control_unit. */
  function InitControlUnit(s: State): (r: State)
    requires Wf(s)
    ensures Wf(r)
  {
    s.(pc := 0, ir := 0, running := true, cc := 2, reg := seq(NREG, _ => 0))
  }

  /** The cell at address a after initialize_memory: below the origin it is left as
      it was, from the origin on it holds the parsed words in order (each narrowed to
      a `short`), and above them it is zeroed. */
  function LoadedCell(mem: seq<Word>, origin: nat, words: seq<int>, a: int): Word
    requires 0 <= a < |mem|
  {
    if a < origin then mem[a]
    else if a < origin + |words| then Wrap16(words[a - origin])
    else 0
  }

  /** initialize_memory, given the origin and the words parsed from the program
      file: pc and origin are set and memory is filled as LoadedCell says. */
  function Load(s: State, origin: nat, words: seq<int>): (r: State)
    requires Wf(s) && origin + |words| <= MEMLEN
    ensures Wf(r)
  {
    s.(pc := origin, origin := origin,
       mem := seq(MEMLEN, a requires 0 <= a < MEMLEN => LoadedCell(s.mem, origin, words, a)))
  }

  /** The console's test on a requested number of cycles (read_execute_command). */
  predicate CycleCountAccepted(n: int, pc: int) {
    !(n < 1 || n > MEMLEN || n > MEMLEN - pc)
  }

  /** jump_command: pc is set to the address typed and the CPU resumes running. */
  function JumpPatch(s: State, address: int): State {
    s.(pc := address, running := true)
  }

  /** register_command: the value typed, narrowed, goes to register r. */
  function RegisterPatch(s: State, r: int, value: int): (t: State)
    requires Wf(s) && 0 <= r < NREG
    ensures Wf(t)
  {
    s.(reg := s.reg[r := Wrap16(value)])
  }

  /** memory_command: the value typed, narrowed, goes to the cell at address. */
  function MemoryPatch(s: State, address: int, value: int): (t: State)
    requires Wf(s) && 0 <= address < MEMLEN
    ensures Wf(t)
  {
    s.(mem := s.mem[address := Wrap16(value)])
  }
}
