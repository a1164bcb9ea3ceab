/** The LC-3 simulator's `CPU` struct and the functions that update it in place: one
    method per C function, each proved to take the CPU from a state s to the state
    the matching Lc3 transition function gives for s. */
module Lc3Simulator {
  import opened Words
  import opened ZeroTerminated
  import opened Lc3

  class Cpu {
    const mem: array<Word>
    const reg: array<Word>
    var pc: int
    var running: bool
    var cc: int
    var ir: Word
    var opcode: int
    var origin: nat

    /** The arrays have the sizes of the struct's `mem[MEMLEN]` and `reg[NREG]`. */
    ghost predicate Valid()
      reads this
    {
      mem.Length == MEMLEN && reg.Length == NREG && mem != reg
    }

    /** The whole CPU state as a value. */
    ghost function Snapshot(): (s: State)
      requires Valid()
      reads this, mem, reg
      ensures Wf(s)
    {
      State(mem[..], reg[..], pc, running, cc, ir, opcode, origin)
    }

    /** `CPU cpu_value;` in main: storage for the CPU. C leaves it uninitialised;
        here the cells start at zero. */
    constructor ()
      ensures Valid() && fresh(mem) && fresh(reg)
      ensures forall a :: 0 <= a < MEMLEN ==> mem[a] == 0
      ensures forall i :: 0 <= i < NREG ==> reg[i] == 0
    {
      mem := new Word[MEMLEN](_ => 0);
      reg := new Word[NREG](_ => 0);
    }

    /** initialize_control_unit. */
    method InitializeControlUnit()
      requires Valid()
      modifies this, reg
      ensures Valid() && Snapshot() == InitControlUnit(old(Snapshot()))
    {
      pc := 0;
      ir := 0;
      running := true;
      cc := 2;
      var i := 0;
      while i < NREG
        invariant 0 <= i <= NREG
        invariant forall k :: 0 <= k < i ==> reg[k] == 0
        modifies reg
      {
        reg[i] := 0;
        i := i + 1;
      }
      assert reg[..] == InitControlUnit(old(Snapshot())).reg by {
        assert forall k :: 0 <= k < NREG ==> reg[..][k] == InitControlUnit(old(Snapshot())).reg[k];
      }
    }

    /** initialize_memory, after the origin and the words have been parsed: the words
        are stored from the origin on and the rest of memory above them is zeroed. */
    method InitializeMemory(origin': nat, words: seq<int>)
      requires Valid() && origin' + |words| <= MEMLEN
      modifies this, mem
      ensures Valid() && Snapshot() == Load(old(Snapshot()), origin', words)
    {
      var loc := origin';
      pc := origin';
      origin := origin';
      var i := 0;
      while i < |words|
        invariant 0 <= i <= |words| && loc == origin' + i
        invariant forall a :: 0 <= a < MEMLEN ==>
          mem[a] == if origin' <= a < loc then Wrap16(words[a - origin']) else old(mem[a])
        modifies mem
      {
        mem[loc] := Wrap16(words[i]);
        loc := loc + 1;
        i := i + 1;
      }
      while loc < MEMLEN
        invariant origin' + |words| <= loc <= MEMLEN
        invariant forall a :: 0 <= a < MEMLEN ==>
          mem[a] == if a < loc then LoadedCell(old(mem[..]), origin', words, a) else old(mem[a])
        modifies mem
      {
        mem[loc] := 0;
        loc := loc + 1;
      }
      assert mem[..] == Load(old(Snapshot()), origin', words).mem by {
        assert forall a :: 0 <= a < MEMLEN ==> mem[..][a] == Load(old(Snapshot()), origin', words).mem[a];
      }
    }

    /** halt_processor. */
    method HaltProcessor()
      requires Valid()
      modifies this
      ensures Valid() && Snapshot() == Halt(old(Snapshot()))
    {
      running := false;
    }

    /** one_instruction_cycle: a halted CPU does nothing; otherwise the word at pc is
        fetched, pc advances, and the opcode's handler runs. */
    method OneInstructionCycle(input: Char) returns (printed: seq<int>)
      requires Valid() && CanCycle(Snapshot())
      modifies this, mem, reg
      ensures Valid()
      ensures Snapshot() == Cycle(old(Snapshot()), input)
      ensures printed == CyclePrinted(old(Snapshot()))
    {
      printed := [];
      if !running {
        return;
      }
      ir := mem[pc];
      pc := pc + 1;
      opcode := Opcode(ir);
      assert Snapshot() == Fetch(old(Snapshot()));
      match opcode {
        case 0x0 => BranchInstr();
        case 0x1 => AddInstr();
        case 0x2 => LoadInstr();
        case 0x3 => StoreInstr();
        case 0x4 => JumpSubrInstr();
        case 0x5 => AndInstr();
        case 0x6 => LdrInstr();
        case 0x7 => StrInstr();
        case 0x8 => HaltProcessor();
        case 0x9 => NotInstr();
        case 0xA => LdiInstr();
        case 0xB => StiInstr();
        case 0xC => JumpInstr();
        case 0xD => HaltProcessor();
        case 0xE => LeaInstr();
        case 0xF => printed := TrapInstr(input);
        case _ =>
      }
    }

    /** manyInstructionCycles: n cycles, the i-th one reading inputs[i] if it reads
        the console. Cycles after a halt are no-ops. */
    method ManyInstructionCycles(n: int, inputs: seq<Char>) returns (printed: seq<int>)
      requires Valid() && n <= |inputs|
      requires CanRun(Snapshot(), inputs[..if n < 0 then 0 else n])
      modifies this, mem, reg
      ensures Valid()
      ensures Snapshot() == Run(old(Snapshot()), inputs[..if n < 0 then 0 else n])
      ensures printed == RunPrinted(old(Snapshot()), inputs[..if n < 0 then 0 else n])
    {
      var count := if n < 0 then 0 else n;
      printed := [];
      var i := 0;
      assert inputs[i..count] == inputs[..count];
      while i < n
        invariant 0 <= i <= count
        invariant Valid()
        invariant CanRun(Snapshot(), inputs[i..count])
        invariant Run(Snapshot(), inputs[i..count]) == Run(old(Snapshot()), inputs[..count])
        invariant printed + RunPrinted(Snapshot(), inputs[i..count])
          == RunPrinted(old(Snapshot()), inputs[..count])
      {
        assert inputs[i..count][1..] == inputs[i + 1..count];
        var out := OneInstructionCycle(inputs[i]);
        printed := printed + out;
        i := i + 1;
      }
    }

    /** The number branch of read_execute_command: a count the console refuses runs
        nothing, 1 runs one cycle, any other accepted count runs that many. */
    method CycleCommand(n: int, inputs: seq<Char>) returns (printed: seq<int>)
      requires Valid()
      requires CycleCountAccepted(n, pc) ==> n <= |inputs| && CanRun(Snapshot(), inputs[..n])
      modifies this, mem, reg
      ensures Valid()
      ensures Snapshot() ==
        if CycleCountAccepted(n, old(pc)) then Run(old(Snapshot()), inputs[..n]) else old(Snapshot())
      ensures printed ==
        if CycleCountAccepted(n, old(pc)) then RunPrinted(old(Snapshot()), inputs[..n]) else []
    {
      printed := [];
      if !CycleCountAccepted(n, pc) {
        // a refused count is reported and ignored
      } else if n == 1 {
        assert inputs[..1][1..] == [];
        printed := OneInstructionCycle(inputs[0]);
      } else {
        printed := ManyInstructionCycles(n, inputs);
      }
    }

    /** branch_instr. */
    method BranchInstr()
      requires Valid()
      modifies this
      ensures Valid() && Snapshot() == Br(old(Snapshot()))
    {
      var argu := Bits11To9(ir);
      if ir == 0 {
        // NOP
      } else if BranchTaken(cc, argu) {
        var pcoffset := SignExtend(LowBits(ir, 9), 9);
        pc := pc + pcoffset;
      }
    }

    /** add_instr. */
    method AddInstr()
      requires Valid()
      modifies this, reg
      ensures Valid() && Snapshot() == Add(old(Snapshot()))
    {
      var ident := Bit5(ir);
      var dst, src1 := Bits11To9(ir), Bits8To6(ir);
      if ident == 0 {
        var src2 := Bits2To0(ir);
        reg[dst] := Wrap16(reg[src1] as int + reg[src2]);
        cc := ConditionFor(reg[dst]);
      } else {
        var imm := SignExtend(LowBits(ir, 5), 5);
        reg[dst] := Wrap16(reg[src1] + imm);
        reg[dst] := Wrap16(reg[src1] + imm);
        cc := ConditionFor(reg[dst]);
      }
    }

    /** and_instr. */
    method AndInstr()
      requires Valid()
      modifies this, reg
      ensures Valid() && Snapshot() == And(old(Snapshot()))
    {
      var ident := Bit5(ir);
      var dst, src1 := Bits11To9(ir), Bits8To6(ir);
      if ident == 0 {
        var src2 := Bits2To0(ir);
        reg[dst] := And16(reg[src2], reg[src1]);
        reg[dst] := And16(reg[src1], reg[src2]);
        cc := ConditionFor(reg[dst]);
      } else {
        var imm := SignExtend(LowBits(ir, 5), 5);
        reg[dst] := And16(reg[src1], imm);
        reg[dst] := And16(reg[src1], imm);
        cc := ConditionFor(reg[dst]);
      }
    }

    /** not_instr. */
    method NotInstr()
      requires Valid()
      modifies this, reg
      ensures Valid() && Snapshot() == Not(old(Snapshot()))
    {
      var dst, src := Bits11To9(ir), Bits8To6(ir);
      reg[dst] := Complement16(reg[src]);
      cc := ConditionFor(reg[dst]);
    }

    /** load_instr. */
    method LoadInstr()
      requires Valid() && PcRelativeDefined(Snapshot())
      modifies this, reg
      ensures Valid() && Snapshot() == Ld(old(Snapshot()))
    {
      var pcoffset := SignExtend(LowBits(ir, 9), 9);
      var dst := Bits11To9(ir);
      reg[dst] := mem[pc + pcoffset];
      cc := ConditionFor(reg[dst]);
    }

    /** store_instr. */
    method StoreInstr()
      requires Valid() && PcRelativeDefined(Snapshot())
      modifies this, mem
      ensures Valid() && Snapshot() == St(old(Snapshot()))
    {
      var pcoffset := SignExtend(LowBits(ir, 9), 9);
      var dst := Bits11To9(ir);
      mem[pc + pcoffset] := reg[dst];
      cc := ConditionFor(reg[dst]);
    }

    /** jump_subr_instr. */
    method JumpSubrInstr()
      requires Valid() && JsrDefined(Snapshot())
      modifies this, reg
      ensures Valid() && Snapshot() == Jsr(old(Snapshot()))
    {
      if Bit11(ir) == 1 {
        reg[7] := Wrap16(pc);
        var jumpoffset := SignExtend(LowBits(ir, 11), 11);
        pc := pc + jumpoffset;
      } else {
        var base := JsrrBase(ir);
        reg[7] := Wrap16(pc);
        pc := reg[base];
      }
    }

    /** ldr_instr. */
    method LdrInstr()
      requires Valid() && BaseRelativeDefined(Snapshot())
      modifies this, reg
      ensures Valid() && Snapshot() == Ldr(old(Snapshot()))
    {
      var dst, base := Bits11To9(ir), Bits8To6(ir);
      var offset := SignExtend(LowBits(ir, 6), 6);
      reg[dst] := mem[reg[base] + offset];
      cc := ConditionFor(reg[dst]);
    }

    /** str_instr. */
    method StrInstr()
      requires Valid() && BaseRelativeDefined(Snapshot())
      modifies this, mem
      ensures Valid() && Snapshot() == Str(old(Snapshot()))
    {
      var src, base := Bits11To9(ir), Bits8To6(ir);
      var offset := SignExtend(LowBits(ir, 6), 6);
      mem[reg[base] + offset] := reg[src];
      cc := ConditionFor(mem[reg[base] + offset]);
    }

    /** ldi_instr. */
    method LdiInstr()
      requires Valid() && LdiDefined(Snapshot())
      modifies this, reg
      ensures Valid() && Snapshot() == Ldi(old(Snapshot()))
    {
      var dst := Bits11To9(ir);
      var pcoffset := SignExtend(LowBits(ir, 9), 9);
      reg[dst] := mem[mem[pcoffset]];
      cc := ConditionFor(reg[dst]);
    }

    /** sti_instr. */
    method StiInstr()
      requires Valid() && StiDefined(Snapshot())
      modifies this, mem
      ensures Valid() && Snapshot() == Sti(old(Snapshot()))
    {
      var src := Bits11To9(ir);
      mem[mem[pc]] := reg[src];
      cc := ConditionFor(mem[mem[pc]]);
    }

    /** jump_instr. */
    method JumpInstr()
      requires Valid()
      modifies this, reg
      ensures Valid() && Snapshot() == Jmp(old(Snapshot()))
    {
      var base := JmpBase(ir);
      reg[base] := Wrap16(pc);
      pc := reg[base];
    }

    /** lea_instr. */
    method LeaInstr()
      requires Valid()
      modifies this, reg
      ensures Valid() && Snapshot() == Lea(old(Snapshot()))
    {
      var dst := Bits11To9(ir);
      var pcoffset := SignExtend(LowBits(ir, 9), 9);
      reg[dst] := Wrap16(pc + pcoffset);
      cc := ConditionFor(reg[dst]);
    }

    /** trap_instr. The character GETC and IN read is the parameter input. */
    method TrapInstr(input: Char) returns (printed: seq<int>)
      requires Valid() && TrapDefined(Snapshot())
      modifies this, reg
      ensures Valid() && Snapshot() == Trap(old(Snapshot()), input)
      ensures printed == TrapPrinted(old(Snapshot()))
    {
      reg[7] := Wrap16(pc);
      var trapCode := TrapVector(ir);
      printed := [];
      match trapCode {
        case 0x20 => reg[0] := input;
        case 0x21 => printed := [reg[0] as int];
        case 0x22 => printed := Puts();
        case 0x23 => reg[0] := input;
        case 0x24 => HaltProcessor();
        case 0x25 => HaltProcessor();
        case _ =>
      }
      pc := reg[7];
    }

    /** The PUTS loop: the cells from the address in R0 up to the first zero. */
    method Puts() returns (text: seq<int>)
      requires Valid() && Terminated(mem[..], reg[0])
      ensures text == StringAt(mem[..], reg[0])
    {
      var location: int := reg[0];
      text := [];
      ghost var cells := mem[..];
      while mem[location] != 0
        invariant Terminated(cells, location)
        invariant text + StringAt(cells, location) == StringAt(cells, reg[0])
        decreases MEMLEN - location
      {
        assert StringAt(cells, location) == [cells[location]] + StringAt(cells, location + 1);
        assert text + StringAt(cells, location)
          == (text + [mem[location] as int]) + StringAt(cells, location + 1);
        text := text + [mem[location] as int];
        location := location + 1;
      }
    }

    /** jump_command, after its address has been parsed. */
    method JumpCommand(address: int)
      requires Valid()
      modifies this
      ensures Valid() && Snapshot() == JumpPatch(old(Snapshot()), address)
    {
      pc := address;
      running := true;
    }

    /** register_command, after its register number and value have been parsed. */
    method RegisterCommand(r: int, value: int)
      requires Valid() && 0 <= r < NREG
      modifies reg
      ensures Valid() && Snapshot() == RegisterPatch(old(Snapshot()), r, value)
    {
      reg[r] := Wrap16(value);
    }

    /** memory_command, after its address and value have been parsed. */
    method MemoryCommand(address: int, value: int)
      requires Valid() && 0 <= address < MEMLEN
      modifies mem
      ensures Valid() && Snapshot() == MemoryPatch(old(Snapshot()), address, value)
    {
      mem[address] := Wrap16(value);
    }
  }
}
