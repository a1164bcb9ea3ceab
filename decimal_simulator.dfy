/** The decimal machine's globals and the functions that update them in place: one
    method per C function, each proved to take the machine from a state s to the
    state the matching Decimal transition function gives for s. */
module DecimalSimulator {
  import opened ZeroTerminated
  import opened Decimal

  class Machine {
    const mem: array<int>
    const reg: array<int>
    var pc: int
    var ir: int
    var running: bool

    /** The arrays have the sizes of `mem[MEMLEN]` and `reg[NREG]`; pc is not negative. */
    ghost predicate Valid()
      reads this
    {
      mem.Length == MEMLEN && reg.Length == NREG && mem != reg && 0 <= pc
    }

    /** The globals as a value. */
    ghost function Snapshot(): (s: State)
      requires Valid()
      reads this, mem, reg
      ensures Wf(s)
    {
      State(mem[..], reg[..], pc, ir, running)
    }

    /** The globals as the program starts: C zero-initialises them, so the machine
        is not running until initialize_control_unit. */
    constructor ()
      ensures Valid() && fresh(mem) && fresh(reg)
      ensures pc == 0 && ir == 0 && !running
      ensures forall a :: 0 <= a < MEMLEN ==> mem[a] == 0
      ensures forall i :: 0 <= i < NREG ==> reg[i] == 0
    {
      mem := new int[MEMLEN](_ => 0);
      reg := new int[NREG](_ => 0);
      pc := 0;
      ir := 0;
      running := false;
    }

    /** initialize_control_unit. */
    method InitializeControlUnit()
      requires Valid()
      modifies this, reg
      ensures Valid() && Snapshot() == InitControlUnit(old(Snapshot()))
    {
      var i := 0;
      while i < NREG
        invariant 0 <= i <= NREG
        invariant forall k :: 0 <= k < i ==> reg[k] == 0
        modifies reg
      {
        reg[i] := 0;
        i := i + 1;
      }
      pc := 0;
      running := true;
      ir := 0;
      assert reg[..] == InitControlUnit(old(Snapshot())).reg by {
        assert forall k :: 0 <= k < NREG ==> reg[..][k] == InitControlUnit(old(Snapshot())).reg[k];
      }
    }

    /** initialize_memory, after the file's lines have been parsed into `values`:
        values are stored from cell 0 until the first out-of-range one, the end of
        the values or the end of memory, and the remaining cells are zeroed. The
        memory test is `loc >= MEMLEN`, which keeps every store inside memory. */
    method InitializeMemory(values: seq<int>)
      requires Valid()
      modifies mem
      ensures Valid() && Snapshot() == Load(old(Snapshot()), values)
    {
      var loc := 0;
      var done := false;
      ghost var count := StoredCountCorrected(values);
      while loc < |values| && !done
        invariant 0 <= loc <= |values| && loc <= MEMLEN && loc <= count
        invariant done ==> loc == count
        invariant !done ==> StoredCount(values, MEMLEN - 1, loc) == count
        invariant forall a :: 0 <= a < loc ==> mem[a] == values[a]
        decreases |values| - loc, !done
      {
        if loc >= MEMLEN {
          // memory is full: loading stops
          done := true;
        } else if values[loc] > SENTINEL_BOUND || values[loc] < -SENTINEL_BOUND {
          // the sentinel ends loading
          done := true;
        } else {
          mem[loc] := values[loc];
          loc := loc + 1;
        }
      }
      while loc < MEMLEN
        invariant count <= loc <= MEMLEN
        invariant forall a :: 0 <= a < loc ==> mem[a] == LoadedMemory(values)[a]
      {
        mem[loc] := 0;
        loc := loc + 1;
      }
      assert mem[..] == LoadedMemory(values) by {
        assert forall a :: 0 <= a < MEMLEN ==> mem[..][a] == LoadedMemory(values)[a];
      }
    }

    /** exec_HLT. */
    method ExecHlt()
      requires Valid()
      modifies this
      ensures Valid() && Snapshot() == Halt(old(Snapshot()))
    {
      running := false;
    }

    /** The print-string service: the cells from `from` up to the first zero. */
    method PrintString(from: int) returns (text: seq<int>)
      requires Valid() && Terminated(mem[..], from)
      ensures text == StringAt(mem[..], from)
    {
      text := [];
      var address := from;
      ghost var cells := mem[..];
      while mem[address] != 0
        invariant Terminated(cells, address)
        invariant text + StringAt(cells, address) == StringAt(cells, from)
        decreases MEMLEN - address
      {
        assert StringAt(cells, address) == [cells[address]] + StringAt(cells, address + 1);
        assert text + StringAt(cells, address)
          == (text + [mem[address]]) + StringAt(cells, address + 1);
        text := text + [mem[address]];
        address := address + 1;
      }
    }

    /** The fetch of one_instruction_cycle: the word at pc goes to ir, pc advances,
        and the word is split into its sign and its magnitude, which stays in ir. */
    method FetchInstruction() returns (sign: int)
      requires Valid() && pc < MEMLEN
      modifies this
      ensures Valid() && 0 <= ir
      ensures Snapshot() == Fetch(old(Snapshot()))
      ensures sign == Sign(old(mem[pc]))
    {
      ir := mem[pc];
      pc := pc + 1;
      // Left at 0 for the zero word, whose opcode 0 does not read it.
      sign := 0;
      if ir < 0 {
        sign := -1;
        ir := -ir;
      } else if ir > 0 {
        sign := 1;
      }
    }

    /** The switch of one_instruction_cycle: the magnitude's digits in ir select the
        operation, which uses the fetched word's sign and, for a read, the console's
        character. */
    method ExecuteInstruction(sign: int, input: InputChar) returns (printed: seq<int>)
      requires Valid() && 0 <= ir && Defined(Snapshot())
      modifies this, mem, reg
      ensures Valid()
      ensures Snapshot() == Execute(old(Snapshot()), sign, input)
      ensures printed == Printed(old(Snapshot()))
    {
      printed := [];
      var opcode, R, MM := OpcodeOf(ir), RegisterOf(ir), AddressOf(ir);
      match opcode {
        case 0 => ExecHlt();
        case 1 => reg[R] := mem[MM];
        case 2 => mem[MM] := reg[R];
        case 3 => reg[R] := reg[R] + mem[MM];
        case 4 => reg[R] := -reg[R];
        // `MM * sign`, for a sign of -1, 0 or 1
        case 5 => reg[R] := Signed(MM, sign);
        case 6 => reg[R] := reg[R] + Signed(MM, sign);
        case 7 => pc := MM;
        case 8 =>
          if reg[R] > 0 && sign > 0 {
            pc := MM;
          } else if reg[R] < 0 && sign < 0 {
            pc := MM;
          }
        case 9 =>
          if R == 0 {
            reg[0] := input;
          } else if R == 1 {
            printed := [reg[0]];
          } else if R == 2 {
            printed := PrintString(MM);
          }
        case _ =>
          // an unknown opcode is reported and skipped
      }
    }

    /** one_instruction_cycle: a halted machine does nothing; otherwise the word at
        pc is fetched and executed. */
    method OneInstructionCycle(input: InputChar) returns (printed: seq<int>)
      requires Valid() && CanCycle(Snapshot())
      modifies this, mem, reg
      ensures Valid()
      ensures Snapshot() == Cycle(old(Snapshot()), input)
      ensures printed == CyclePrinted(old(Snapshot()))
    {
      printed := [];
      if !running {
        // a halted machine is reported and left alone
        return;
      }
      var sign := FetchInstruction();
      printed := ExecuteInstruction(sign, input);
    }

    /** many_instruction_cycles: nothing for a count below 1 or a halted machine;
        otherwise up to n cycles, stopping as soon as the machine halts. */
    method ManyInstructionCycles(n: int, inputs: seq<InputChar>) returns (printed: seq<int>)
      requires Valid() && n <= |inputs|
      requires CanRun(Snapshot(), inputs[..if n < 0 then 0 else n])
      modifies this, mem, reg
      ensures Valid()
      ensures Snapshot() == Run(old(Snapshot()), inputs[..if n < 0 then 0 else n])
      ensures printed == RunPrinted(old(Snapshot()), inputs[..if n < 0 then 0 else n])
    {
      printed := [];
      if n <= 0 {
        // a count below 1 is reported and ignored
        return;
      } else if !running {
        // a halted machine is reported and left alone
        HaltedRunChangesNothing(Snapshot(), inputs[..n]);
        return;
      }
      ghost var start, all := Snapshot(), inputs[..n];
      ghost var current := start;
      var i := 0;
      assert inputs[i..n] == all;
      while i < n && running
        invariant 0 <= i <= n
        invariant Valid() && current == Snapshot()
        invariant CanRun(current, inputs[i..n])
        invariant Run(current, inputs[i..n]) == Run(start, all)
        invariant printed + RunPrinted(current, inputs[i..n]) == RunPrinted(start, all)
      {
        CycleAdvancesRun(current, inputs, i, n, printed);
        ghost var next := Cycle(current, inputs[i]);
        var out := OneInstructionCycle(inputs[i]);
        printed := printed + out;
        i := i + 1;
        current := next;
      }
      if i < n {
        HaltedRunChangesNothing(current, inputs[i..n]);
      }
    }

    /** The number branch of read_execute_command: a count the console refuses runs
        nothing, 1 runs one cycle, any other accepted count runs many_instruction_cycles. */
    method CycleCommand(n: int, inputs: seq<InputChar>) returns (printed: seq<int>)
      requires Valid()
      requires CycleCountAccepted(n, pc) ==> n <= |inputs| && CanRun(Snapshot(), inputs[..n])
      modifies this, mem, reg
      ensures Valid()
      ensures Snapshot() ==
        if CycleCountAccepted(n, old(pc)) then Run(old(Snapshot()), inputs[..n]) else old(Snapshot())
      ensures printed ==
        if CycleCountAccepted(n, old(pc)) then RunPrinted(old(Snapshot()), inputs[..n]) else []
    {
      printed := [];
      if !CycleCountAccepted(n, pc) {
        // a refused count is reported and ignored
      } else if n == 1 {
        assert inputs[..1][1..] == [];
        printed := OneInstructionCycle(inputs[0]);
      } else {
        printed := ManyInstructionCycles(n, inputs);
      }
    }
  }
}
