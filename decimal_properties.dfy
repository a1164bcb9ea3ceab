/** What the decimal machine's cycle does, opcode by opcode, stated on the state
    before the fetch; what the loader leaves in memory; and how runs of cycles
    behave once the machine has halted. */
module DecimalProperties {
  import opened ZeroTerminated
  import opened Decimal

  /** A running machine whose next fetch is inside memory and brings a word whose
      magnitude has opcode op. */
  predicate Fetches(s: State, op: int) {
    Wf(s) && s.running && s.pc < MEMLEN && OpcodeOf(Magnitude(s.mem[s.pc])) == op
  }

  // ---------------------------------------------------------------------------
  // Initialisation and loading.

  /** initialize_control_unit zeroes all ten registers, pc and ir, starts the
      machine, and leaves memory alone. */
  lemma InitResetsControlUnit(s: State)
    requires Wf(s)
    ensures var r := InitControlUnit(s);
      r.pc == 0 && r.ir == 0 && r.running && r.mem == s.mem
      && forall i :: 0 <= i < NREG ==> r.reg[i] == 0
  {
  }

  /** The loader puts the leading in-range values, at most MEMLEN of them, in cells
      0, 1, ... in order, and zero in every later cell; so every cell holds a value
      of at most four digits. */
  lemma LoaderPlacesValues(values: seq<int>)
    ensures var mem, count := LoadedMemory(values), Min(LeadingInRange(values), MEMLEN);
      (forall i :: 0 <= i < count ==> mem[i] == values[i])
      && (forall i :: count <= i < MEMLEN ==> mem[i] == 0)
      && (forall i :: 0 <= i < MEMLEN ==> InRange(mem[i]))
  {
  }

  /** A loaded word decodes to an opcode 0..9: bad opcodes only arise from values the
      program itself stores. */
  lemma LoadedWordsHaveValidOpcodes(values: seq<int>, a: int)
    requires 0 <= a < MEMLEN
    ensures OpcodeOf(Magnitude(LoadedMemory(values)[a])) <= 9
  {
    LoaderPlacesValues(values);
  }

  // ---------------------------------------------------------------------------
  // Decoding.

  /** The fetch keeps the sign apart and puts the magnitude in ir, whose decimal
      digits are the opcode, the register and the two-digit address: sign times
      1000 * OP + 100 * R + MM gives the word back. */
  lemma FetchDecodes(s: State)
    requires Wf(s) && s.pc < MEMLEN
    ensures var w, r := s.mem[s.pc], Fetch(s);
      r.pc == s.pc + 1 && r.ir == Magnitude(w)
      && r.ir == 1000 * OpcodeOf(r.ir) + 100 * RegisterOf(r.ir) + AddressOf(r.ir)
      && Sign(w) * r.ir == w
      && r.mem == s.mem && r.reg == s.reg && r.running == s.running
  {
    var m := Magnitude(s.mem[s.pc]);
    assert m == 1000 * (m / 1000) + m % 1000;
    assert m % 1000 == 100 * (m % 1000 / 100) + m % 1000 % 100;
    assert m % 1000 % 100 == m % 100;
  }

  /** Writing an instruction as OP R MM and decoding it gives the three fields back. */
  lemma DecodeOfEncoding(op: nat, r: nat, mm: nat)
    requires r < NREG && mm < MEMLEN
    ensures OpcodeOf(1000 * op + 100 * r + mm) == op
    ensures RegisterOf(1000 * op + 100 * r + mm) == r
    ensures AddressOf(1000 * op + 100 * r + mm) == mm
  {
    var m := 1000 * op + 100 * r + mm;
    assert 100 * r + mm < 1000;
    assert m / 1000 == op;
    assert m % 1000 == 100 * r + mm;
    assert m % 100 == mm by {
      assert m == 100 * (10 * op + r) + mm;
    }
  }

  // ---------------------------------------------------------------------------
  // The opcodes.

  /** Opcode 0 halts; registers, memory and the advanced pc are kept. */
  lemma CycleHalt(s: State, input: InputChar)
    requires Fetches(s, 0)
    ensures CanCycle(s)
    ensures var r := Cycle(s, input);
      !r.running && r.reg == s.reg && r.mem == s.mem && r.pc == s.pc + 1
  {
  }

  /** Opcodes 1 and 3-6 change only register R: load from MM, add the cell at MM,
      negate, load the signed immediate MM, add the signed immediate MM. */
  lemma CycleRegisterOps(s: State, input: InputChar)
    requires Wf(s) && s.running && s.pc < MEMLEN
    requires var op := OpcodeOf(Magnitude(s.mem[s.pc])); op == 1 || 3 <= op <= 6
    ensures CanCycle(s)
    ensures var w, r := s.mem[s.pc], Cycle(s, input);
      var m := Magnitude(w);
      var op, R, MM := OpcodeOf(m), RegisterOf(m), AddressOf(m);
      var v :=
        if op == 1 then s.mem[MM]
        else if op == 3 then s.reg[R] + s.mem[MM]
        else if op == 4 then -s.reg[R]
        else if op == 5 then if w < 0 then -(MM as int) else MM
        else s.reg[R] + (if w < 0 then -(MM as int) else MM);
      r.reg == s.reg[R := v] && r.mem == s.mem && r.pc == s.pc + 1 && r.running
  {
  }

  /** Opcode 2 stores register R into cell MM and changes nothing else. */
  lemma CycleStore(s: State, input: InputChar)
    requires Fetches(s, 2)
    ensures CanCycle(s)
    ensures var m, r := Magnitude(s.mem[s.pc]), Cycle(s, input);
      r.mem == s.mem[AddressOf(m) := s.reg[RegisterOf(m)]]
      && r.reg == s.reg && r.pc == s.pc + 1 && r.running
  {
  }

  /** Opcode 7 jumps to MM; opcode 8 jumps to MM exactly when register R is
      positive and the word is positive, or negative and the word is negative. */
  lemma CycleJumpAndBranch(s: State, input: InputChar)
    requires Fetches(s, 7) || Fetches(s, 8)
    ensures CanCycle(s)
    ensures var w, r := s.mem[s.pc], Cycle(s, input);
      var m := Magnitude(w);
      var taken := OpcodeOf(m) == 7 || (s.reg[RegisterOf(m)] > 0 && w > 0)
                   || (s.reg[RegisterOf(m)] < 0 && w < 0);
      r.pc == (if taken then AddressOf(m) else s.pc + 1)
      && r.reg == s.reg && r.mem == s.mem && r.running
  {
  }

  /** A branch on a zero register is never taken. */
  lemma ZeroRegisterNeverBranches(s: State, input: InputChar)
    requires Fetches(s, 8) && s.reg[RegisterOf(Magnitude(s.mem[s.pc]))] == 0
    ensures CanCycle(s) && Cycle(s, input).pc == s.pc + 1
  {
    CycleJumpAndBranch(s, input);
  }

  /** Opcode 9 with register digit 0 reads a character into R0; every other
      service (print a character, print a string, dumps, unknown) changes no
      state beyond the fetch. */
  lemma CycleIo(s: State, input: InputChar)
    requires Fetches(s, 9)
    requires var m := Magnitude(s.mem[s.pc]);
      RegisterOf(m) == 2 ==> Terminated(s.mem, AddressOf(m))
    ensures CanCycle(s)
    ensures var m, r := Magnitude(s.mem[s.pc]), Cycle(s, input);
      r.reg == (if RegisterOf(m) == 0 then s.reg[0 := input] else s.reg)
      && r.mem == s.mem && r.pc == s.pc + 1 && r.running
  {
  }

  /** The services print R0 (register digit 1) or the string at MM up to its
      terminating zero (register digit 2); nothing else prints. */
  lemma CyclePrints(s: State)
    requires Wf(s) && s.running && s.pc < MEMLEN && CanCycle(s)
    ensures var m := Magnitude(s.mem[s.pc]);
      var io := OpcodeOf(m) == 9;
      (!(io && (RegisterOf(m) == 1 || RegisterOf(m) == 2)) ==> CyclePrinted(s) == [])
      && (io && RegisterOf(m) == 1 ==> CyclePrinted(s) == [s.reg[0]])
      && (io && RegisterOf(m) == 2 ==>
            var text, from := CyclePrinted(s), AddressOf(m);
            from + |text| < MEMLEN && text == s.mem[from..from + |text|]
            && s.mem[from + |text|] == 0 && forall i :: from <= i < from + |text| ==> s.mem[i] != 0)
  {
    var m := Magnitude(s.mem[s.pc]);
    if OpcodeOf(m) == 9 && RegisterOf(m) == 2 {
      StringAtIsSlice(s.mem, AddressOf(m));
    }
  }

  /** An opcode of 10 or more is reported and skipped: the machine keeps running
      with only pc and ir changed by the fetch. */
  lemma CycleBadOpcode(s: State, input: InputChar)
    requires Wf(s) && s.running && s.pc < MEMLEN && OpcodeOf(Magnitude(s.mem[s.pc])) >= 10
    ensures CanCycle(s)
    ensures Cycle(s, input) == s.(pc := s.pc + 1, ir := Magnitude(s.mem[s.pc]))
  {
  }

  // ---------------------------------------------------------------------------
  // Halting and runs.

  /** A cycle of a halted machine changes nothing and prints nothing. */
  lemma HaltedCycleChangesNothing(s: State, input: InputChar)
    requires Wf(s) && !s.running
    ensures CanCycle(s) && Cycle(s, input) == s && CyclePrinted(s) == []
  {
  }

  /** A run of xs followed by ys is defined exactly when the run of xs is, and the
      run of ys from where it stopped is. */
  lemma {:induction false} CanRunConcatenates(s: State, xs: seq<InputChar>, ys: seq<InputChar>)
    requires Wf(s)
    ensures CanRun(s, xs + ys) <==> CanRun(s, xs) && CanRun(Run(s, xs), ys)
    decreases |xs|
  {
    if |xs| == 0 {
      assert xs + ys == ys;
    } else {
      var zs := xs + ys;
      assert zs[0] == xs[0] && zs[1..] == xs[1..] + ys;
      if CanCycle(s) {
        var t := Cycle(s, xs[0]);
        CanRunConcatenates(t, xs[1..], ys);
        assert CanRun(s, zs) == CanRun(t, zs[1..]);
        assert CanRun(s, xs) == CanRun(t, xs[1..]);
        if CanRun(s, xs) {
          assert Run(s, xs) == Run(t, xs[1..]);
        }
      }
    }
  }

  /** The state after a defined run of xs + ys is the state after running ys from
      where the run of xs stopped. */
  lemma {:induction false} RunStateConcatenates(s: State, xs: seq<InputChar>, ys: seq<InputChar>)
    requires Wf(s) && CanRun(s, xs) && CanRun(Run(s, xs), ys) && CanRun(s, xs + ys)
    ensures Run(s, xs + ys) == Run(Run(s, xs), ys)
    decreases |xs|
  {
    if |xs| == 0 {
      assert xs + ys == ys;
    } else {
      var zs := xs + ys;
      assert zs[0] == xs[0] && zs[1..] == xs[1..] + ys;
      var t := Cycle(s, xs[0]);
      assert CanRun(t, zs[1..]) && CanRun(t, xs[1..]);
      assert Run(s, xs) == Run(t, xs[1..]);
      RunStateConcatenates(t, xs[1..], ys);
      assert Run(s, zs) == Run(t, zs[1..]);
    }
  }

  /** A defined run of xs + ys prints what the run of xs prints, then what the run of
      ys from there prints. */
  lemma {:induction false} RunPrintedConcatenates(s: State, xs: seq<InputChar>, ys: seq<InputChar>)
    requires Wf(s) && CanRun(s, xs) && CanRun(Run(s, xs), ys) && CanRun(s, xs + ys)
    ensures RunPrinted(s, xs + ys) == RunPrinted(s, xs) + RunPrinted(Run(s, xs), ys)
    decreases |xs|
  {
    if |xs| == 0 {
      assert xs + ys == ys;
    } else {
      var zs := xs + ys;
      assert zs[0] == xs[0] && zs[1..] == xs[1..] + ys;
      var t := Cycle(s, xs[0]);
      assert CanRun(t, zs[1..]) && CanRun(t, xs[1..]);
      assert Run(s, xs) == Run(t, xs[1..]);
      RunPrintedConcatenates(t, xs[1..], ys);
      assert RunPrinted(s, zs) == CyclePrinted(s) + RunPrinted(t, zs[1..]);
      assert RunPrinted(s, xs) == CyclePrinted(s) + RunPrinted(t, xs[1..]);
    }
  }

  /** A run of xs followed by ys is the run of xs, then the run of ys from where it
      stopped; it prints what the two print, in order. */
  lemma RunConcatenates(s: State, xs: seq<InputChar>, ys: seq<InputChar>)
    requires Wf(s)
    ensures CanRun(s, xs + ys) <==> CanRun(s, xs) && CanRun(Run(s, xs), ys)
    ensures CanRun(s, xs + ys) ==>
      Run(s, xs + ys) == Run(Run(s, xs), ys)
      && RunPrinted(s, xs + ys) == RunPrinted(s, xs) + RunPrinted(Run(s, xs), ys)
  {
    CanRunConcatenates(s, xs, ys);
    if CanRun(s, xs + ys) {
      RunStateConcatenates(s, xs, ys);
      RunPrintedConcatenates(s, xs, ys);
    }
  }

  /** Once the first k cycles have halted the machine, running all n gives the same
      state and output as stopping after k: the early exit of
      many_instruction_cycles loses nothing. */
  lemma RunStopsAtHalt(s: State, inputs: seq<InputChar>, k: nat)
    requires Wf(s) && k <= |inputs| && CanRun(s, inputs[..k]) && !Run(s, inputs[..k]).running
    ensures CanRun(s, inputs)
    ensures Run(s, inputs) == Run(s, inputs[..k])
    ensures RunPrinted(s, inputs) == RunPrinted(s, inputs[..k])
  {
    var rest := inputs[k..];
    assert inputs == inputs[..k] + rest;
    HaltedRunChangesNothing(Run(s, inputs[..k]), rest);
    RunConcatenates(s, inputs[..k], rest);
  }

  /** The console accepts a count n exactly when 1 <= n <= 100 and n <= 100 - pc. */
  lemma CycleCountBounds(n: int, pc: int)
    requires 0 <= pc
    ensures CycleCountAccepted(n, pc) <==> 1 <= n <= MEMLEN && pc + n <= MEMLEN
  {
  }

  /** A small program: load 5 into R1 (5105), add 3 (6103), store R1 at 50 (2150),
      halt (0). Loaded and run for four cycles, it leaves 8 in cell 50, halted. */
  lemma ExampleProgram(s: State, inputs: seq<InputChar>)
    requires Wf(s) && |inputs| == 4
    ensures var t := InitControlUnit(Load(s, [5105, 6103, 2150, 0]));
      CanRun(t, inputs) && Run(t, inputs).mem[50] == 8 && Run(t, inputs).reg[1] == 8
      && !Run(t, inputs).running && Run(t, inputs).pc == 4
  {
    var t0 := InitControlUnit(Load(s, [5105, 6103, 2150, 0]));
    LoaderPlacesValues([5105, 6103, 2150, 0]);
    assert t0.mem[0] == 5105 && t0.mem[1] == 6103 && t0.mem[2] == 2150 && t0.mem[3] == 0;
    assert t0.reg[1] == 0 && t0.pc == 0 && t0.running;
    DecodeOfEncoding(5, 1, 5);
    DecodeOfEncoding(6, 1, 3);
    DecodeOfEncoding(2, 1, 50);
    CycleRegisterOps(t0, inputs[0]);
    var t1 := Cycle(t0, inputs[0]);
    assert t1.reg[1] == 5 && t1.pc == 1 && t1.running && t1.mem == t0.mem;
    CycleRegisterOps(t1, inputs[1]);
    var t2 := Cycle(t1, inputs[1]);
    assert t2.reg[1] == 8 && t2.pc == 2 && t2.running && t2.mem == t0.mem;
    CycleStore(t2, inputs[2]);
    var t3 := Cycle(t2, inputs[2]);
    assert t3.mem[50] == 8 && t3.pc == 3 && t3.running && t3.mem[3] == 0 && t3.reg == t2.reg;
    CycleHalt(t3, inputs[3]);
    var t4 := Cycle(t3, inputs[3]);
    RunThroughCycles(t0, inputs);
  }

  /** Four defined cycles in a row make up a run of four. */
  lemma RunThroughCycles(t0: State, inputs: seq<InputChar>)
    requires Wf(t0) && |inputs| == 4
    requires CanCycle(t0) && CanCycle(Cycle(t0, inputs[0]))
    requires CanCycle(Cycle(Cycle(t0, inputs[0]), inputs[1]))
    requires CanCycle(Cycle(Cycle(Cycle(t0, inputs[0]), inputs[1]), inputs[2]))
    ensures CanRun(t0, inputs)
    ensures Run(t0, inputs) ==
      Cycle(Cycle(Cycle(Cycle(t0, inputs[0]), inputs[1]), inputs[2]), inputs[3])
  {
    var t1 := Cycle(t0, inputs[0]);
    var t2 := Cycle(t1, inputs[1]);
    var t3 := Cycle(t2, inputs[2]);
    var t4 := Cycle(t3, inputs[3]);
    var rest1, rest2, rest3 := inputs[1..], inputs[2..], inputs[3..];
    assert rest1[0] == inputs[1] && rest1[1..] == rest2;
    assert rest2[0] == inputs[2] && rest2[1..] == rest3;
    assert rest3[0] == inputs[3] && rest3[1..] == [];
    assert CanRun(t4, []) && Run(t4, []) == t4;
    assert CanRun(t3, rest3) && Run(t3, rest3) == t4;
    assert CanRun(t2, rest2) && Run(t2, rest2) == t4;
    assert CanRun(t1, rest1) && Run(t1, rest1) == t4;
  }
}
