/** What the LC-3 simulator's cycle does, instruction by instruction, stated on the
    state before the fetch, and what holds of whole runs: the condition code stays
    one of P, Z, N, and a halted CPU stays where it stopped. */
module Lc3Properties {
  import opened Words
  import opened ZeroTerminated
  import opened Lc3

  /** A running CPU whose next fetch is inside memory and brings a word with opcode op. */
  predicate Fetches(s: State, op: int) {
    Wf(s) && s.running && 0 <= s.pc < MEMLEN && Opcode(s.mem[s.pc]) == op
  }

  /** A condition code calculateCondition can produce. */
  predicate ValidCc(cc: int) {
    cc == 1 || cc == 2 || cc == 4
  }

  // ---------------------------------------------------------------------------
  // Initialisation and the condition code.

  /** initialize_control_unit leaves pc and ir zero, the CPU running, cc at Z and all
      eight registers zero; memory is not touched. */
  lemma InitResetsControlUnit(s: State)
    requires Wf(s)
    ensures var r := InitControlUnit(s);
      r.pc == 0 && r.ir == 0 && r.running && r.cc == 2 && ValidCc(r.cc)
      && (forall i :: 0 <= i < NREG ==> r.reg[i] == 0) && r.mem == s.mem
  {
  }

  /** One cycle leaves a valid condition code valid: every handler that writes cc
      writes calculateCondition's result, and the others leave it alone. */
  lemma CycleKeepsConditionCode(s: State, input: Char)
    requires Wf(s) && CanCycle(s) && ValidCc(s.cc)
    ensures ValidCc(Cycle(s, input).cc)
  {
  }

  /** A run of any length keeps the condition code one of 1, 2, 4. */
  lemma {:induction false} RunKeepsConditionCode(s: State, inputs: seq<Char>)
    requires Wf(s) && CanRun(s, inputs) && ValidCc(s.cc)
    ensures ValidCc(Run(s, inputs).cc)
    decreases |inputs|
  {
    if |inputs| > 0 {
      CycleKeepsConditionCode(s, inputs[0]);
      RunKeepsConditionCode(Cycle(s, inputs[0]), inputs[1..]);
    }
  }

  /** After initialisation, whatever runs, cc is exactly one of P, Z, N. */
  lemma ConditionCodeAfterInitAndRun(s: State, inputs: seq<Char>)
    requires Wf(s) && CanRun(InitControlUnit(s), inputs)
    ensures ValidCc(Run(InitControlUnit(s), inputs).cc)
  {
    RunKeepsConditionCode(InitControlUnit(s), inputs);
  }

  // ---------------------------------------------------------------------------
  // Halting.

  /** A cycle of a halted CPU changes no state and prints nothing. */
  lemma HaltedCycleChangesNothing(s: State, input: Char)
    requires Wf(s) && !s.running
    ensures CanCycle(s) && Cycle(s, input) == s && CyclePrinted(s) == []
  {
  }

  /** Any number of cycles of a halted CPU change no state and print nothing. */
  lemma {:induction false} HaltedRunChangesNothing(s: State, inputs: seq<Char>)
    requires Wf(s) && !s.running
    ensures CanRun(s, inputs) && Run(s, inputs) == s && RunPrinted(s, inputs) == []
    decreases |inputs|
  {
    if |inputs| > 0 {
      HaltedRunChangesNothing(s, inputs[1..]);
    }
  }

  /** A run of xs followed by ys is defined exactly when the run of xs is, and the
      run of ys from where it stopped is. */
  lemma {:induction false} CanRunConcatenates(s: State, xs: seq<Char>, ys: seq<Char>)
    requires Wf(s)
    ensures CanRun(s, xs + ys) <==> CanRun(s, xs) && CanRun(Run(s, xs), ys)
    decreases |xs|
  {
    if |xs| == 0 {
      assert xs + ys == ys;
    } else {
      var zs := xs + ys;
      assert zs[0] == xs[0] && zs[1..] == xs[1..] + ys;
      if CanCycle(s) {
        var t := Cycle(s, xs[0]);
        CanRunConcatenates(t, xs[1..], ys);
        assert CanRun(s, zs) == CanRun(t, zs[1..]);
        assert CanRun(s, xs) == CanRun(t, xs[1..]);
        if CanRun(s, xs) {
          assert Run(s, xs) == Run(t, xs[1..]);
        }
      }
    }
  }

  /** The state after a defined run of xs + ys is the state after running ys from
      where the run of xs stopped. */
  lemma {:induction false} RunStateConcatenates(s: State, xs: seq<Char>, ys: seq<Char>)
    requires Wf(s) && CanRun(s, xs) && CanRun(Run(s, xs), ys) && CanRun(s, xs + ys)
    ensures Run(s, xs + ys) == Run(Run(s, xs), ys)
    decreases |xs|
  {
    if |xs| == 0 {
      assert xs + ys == ys;
    } else {
      var zs := xs + ys;
      assert zs[0] == xs[0] && zs[1..] == xs[1..] + ys;
      var t := Cycle(s, xs[0]);
      assert CanRun(t, zs[1..]) && CanRun(t, xs[1..]);
      assert Run(s, xs) == Run(t, xs[1..]);
      RunStateConcatenates(t, xs[1..], ys);
      assert Run(s, zs) == Run(t, zs[1..]);
    }
  }

  /** A defined run of xs + ys prints what the run of xs prints, then what the run of
      ys from there prints. */
  lemma {:induction false} RunPrintedConcatenates(s: State, xs: seq<Char>, ys: seq<Char>)
    requires Wf(s) && CanRun(s, xs) && CanRun(Run(s, xs), ys) && CanRun(s, xs + ys)
    ensures RunPrinted(s, xs + ys) == RunPrinted(s, xs) + RunPrinted(Run(s, xs), ys)
    decreases |xs|
  {
    if |xs| == 0 {
      assert xs + ys == ys;
    } else {
      var zs := xs + ys;
      assert zs[0] == xs[0] && zs[1..] == xs[1..] + ys;
      var t := Cycle(s, xs[0]);
      assert CanRun(t, zs[1..]) && CanRun(t, xs[1..]);
      assert Run(s, xs) == Run(t, xs[1..]);
      RunPrintedConcatenates(t, xs[1..], ys);
      assert RunPrinted(s, zs) == CyclePrinted(s) + RunPrinted(t, zs[1..]);
      assert RunPrinted(s, xs) == CyclePrinted(s) + RunPrinted(t, xs[1..]);
    }
  }

  /** A run of xs followed by ys is the run of xs, then the run of ys from where it
      stopped; it prints what the two print, in order. */
  lemma RunConcatenates(s: State, xs: seq<Char>, ys: seq<Char>)
    requires Wf(s)
    ensures CanRun(s, xs + ys) <==> CanRun(s, xs) && CanRun(Run(s, xs), ys)
    ensures CanRun(s, xs + ys) ==>
      Run(s, xs + ys) == Run(Run(s, xs), ys)
      && RunPrinted(s, xs + ys) == RunPrinted(s, xs) + RunPrinted(Run(s, xs), ys)
  {
    CanRunConcatenates(s, xs, ys);
    if CanRun(s, xs + ys) {
      RunStateConcatenates(s, xs, ys);
      RunPrintedConcatenates(s, xs, ys);
    }
  }

  /** manyInstructionCycles: once the first k cycles have halted the CPU, the rest of
      the n cycles leave the state as it was after k and print nothing more. */
  lemma RunStaysHalted(s: State, inputs: seq<Char>, k: nat)
    requires Wf(s) && k <= |inputs| && CanRun(s, inputs[..k]) && !Run(s, inputs[..k]).running
    ensures CanRun(s, inputs)
    ensures Run(s, inputs) == Run(s, inputs[..k])
    ensures RunPrinted(s, inputs) == RunPrinted(s, inputs[..k])
  {
    var rest := inputs[k..];
    assert inputs == inputs[..k] + rest;
    HaltedRunChangesNothing(Run(s, inputs[..k]), rest);
    RunConcatenates(s, inputs[..k], rest);
  }

  // ---------------------------------------------------------------------------
  // Fetch, and the opcodes that halt.

  /** The fetch latches mem[pc] in ir, advances pc by one and takes the opcode from
      bits 15-12: the word's pattern is 4096 times the opcode plus its low twelve bits. */
  lemma FetchDecodesOpcode(s: State)
    requires Wf(s) && 0 <= s.pc < MEMLEN
    ensures var r := Fetch(s);
      r.ir == s.mem[s.pc] && r.pc == s.pc + 1 && 0 <= r.opcode < 16
      && Unsigned16(r.ir) == 0x1000 * r.opcode + Unsigned16(r.ir) % 0x1000
      && r.mem == s.mem && r.reg == s.reg && r.cc == s.cc && r.running == s.running
      && r.origin == s.origin
  {
  }

  /** RTI (0x8) and the reserved opcode 0xD stop the CPU and change no register,
      memory cell or condition code. */
  lemma UnsupportedOpcodesHalt(s: State, input: Char)
    requires Fetches(s, 0x8) || Fetches(s, 0xD)
    ensures CanCycle(s)
    ensures var r := Cycle(s, input);
      !r.running && r.reg == s.reg && r.mem == s.mem && r.cc == s.cc && r.pc == s.pc + 1
  {
  }

  // ---------------------------------------------------------------------------
  // BR and JSR.

  /** BR: pc moves by the 9-bit offset exactly when the word is not zero and cc meets
      the nzp mask; nothing else changes. */
  lemma CycleBr(s: State, input: Char)
    requires Fetches(s, 0x0)
    ensures CanCycle(s)
    ensures var w, r := s.mem[s.pc], Cycle(s, input);
      r.pc == (if w != 0 && BranchTaken(s.cc, Bits11To9(w)) then s.pc + 1 + Offset9(w) else s.pc + 1)
      && r.reg == s.reg && r.mem == s.mem && r.cc == s.cc && r.running
  {
  }

  /** The all-zero word has an empty nzp mask, so it could not branch even without
      its own test. */
  lemma ZeroWordNeverBranches(cc: int)
    ensures Bits11To9(0) == 0 && !BranchTaken(cc, Bits11To9(0))
  {
  }

  /** With a condition code set from a result, the branch is taken exactly when the
      mask's N bit (4) is set and the result is negative, its Z bit (2) is set and the
      result is zero, or its P bit (1) is set and the result is positive. */
  lemma BranchFollowsSign(result: int, nzp: nat)
    ensures BranchTaken(ConditionFor(result), nzp) <==>
      (result < 0 && nzp / 4 % 2 == 1) || (result == 0 && nzp / 2 % 2 == 1)
      || (result > 0 && nzp % 2 == 1)
  {
    BitAndSingleBit(nzp);
  }

  /** JSR (bit 11 set): R7 takes the return address and pc moves by the 11-bit offset.
      JSRR with base field 0: R7 takes the return address and pc is taken from R0. */
  lemma CycleJsr(s: State, input: Char)
    requires Fetches(s, 0x4)
    requires Bit11(s.mem[s.pc]) == 1 || Bits8To6(s.mem[s.pc]) == 0
    ensures CanCycle(s)
    ensures var w, r := s.mem[s.pc], Cycle(s, input);
      r.reg == s.reg[7 := Wrap16(s.pc + 1)]
      && r.pc == (if Bit11(w) == 1 then s.pc + 1 + Offset11(w) else s.reg[0] as int)
      && r.mem == s.mem && r.cc == s.cc && r.running
  {
    JsrrBaseNeverSeven(s.mem[s.pc]);
  }

  /** The JSRR base is the field of bits 8-6 left unshifted: it names a register only
      when that field is 0, and is never 7. */
  lemma JsrrBaseNeverSeven(ir: Word)
    ensures JsrrBase(ir) != 7
    ensures JsrrBase(ir) == 0x40 * Bits8To6(ir)
    ensures JsrrBase(ir) < NREG <==> Bits8To6(ir) == 0
  {
    var u := Unsigned16(ir);
    var q, r := u / 0x200, u % 0x200;
    assert u == 0x200 * q + r;
    assert u / 0x40 == 8 * q + r / 0x40;
    assert (8 * q + r / 0x40) % 8 == r / 0x40;
  }

  // ---------------------------------------------------------------------------
  // Operate instructions.

  /** ADD: register mode stores the narrowed sum of the two sources. Immediate mode
      stores src1 + imm5, except that when the destination is src1 itself the second
      assignment adds the immediate again. cc follows the stored value; no other
      register and no memory cell changes. */
  lemma CycleAdd(s: State, input: Char)
    requires Fetches(s, 0x1)
    ensures CanCycle(s)
    ensures var w, r := s.mem[s.pc], Cycle(s, input);
      var dst, src1 := Bits11To9(w), Bits8To6(w);
      var v :=
        if Bit5(w) == 0 then Wrap16(s.reg[src1] as int + s.reg[Bits2To0(w)])
        else if dst != src1 then Wrap16(s.reg[src1] + Imm5(w))
        else Wrap16(s.reg[src1] + 2 * Imm5(w));
      r.reg == s.reg[dst := v] && r.cc == ConditionFor(v)
      && r.mem == s.mem && r.pc == s.pc + 1 && r.running
  {
    var w := s.mem[s.pc];
    if Bit5(w) == 1 && Bits11To9(w) == Bits8To6(w) {
      WrapOfSum(s.reg[Bits8To6(w)] + Imm5(w), Imm5(w));
    }
  }

  /** The example program: ADD R0, R0, #5 loaded at 0x3000 into an initialised CPU
      leaves 10 in R0, because of the doubled assignment, with pc at 0x3001 and cc P. */
  lemma AddImmediateExample(s: State, input: Char)
    requires Wf(s)
    ensures var t := Load(InitControlUnit(s), 0x3000, [0x1025]);
      Fetches(t, 0x1) && t.mem[0x3000] == 0x1025
      && var r := Cycle(t, input);
      r.reg[0] == 10 && r.pc == 0x3001 && r.cc == 1
  {
    var t := Load(InitControlUnit(s), 0x3000, [0x1025]);
    assert t.mem[0x3000] == 0x1025;
    CycleAdd(t, input);
  }

  /** AND: the destination gets the AND of the two operands, even when it aliases a
      source, since repeating the AND changes nothing. cc follows it. */
  lemma CycleAnd(s: State, input: Char)
    requires Fetches(s, 0x5)
    ensures CanCycle(s)
    ensures var w, r := s.mem[s.pc], Cycle(s, input);
      var dst, src1 := Bits11To9(w), Bits8To6(w);
      var v := if Bit5(w) == 0 then And16(s.reg[src1], s.reg[Bits2To0(w)])
               else And16(s.reg[src1], Wrap16(Imm5(w)));
      r.reg == s.reg[dst := v] && r.cc == ConditionFor(v)
      && r.mem == s.mem && r.pc == s.pc + 1 && r.running
  {
    var w := s.mem[s.pc];
    var a := s.reg[Bits8To6(w)];
    if Bit5(w) == 0 {
      var b := s.reg[Bits2To0(w)];
      AndCommutesAndIsIdempotent(a, b);
      AndCommutesAndIsIdempotent(And16(a, b), b);
      AndAbsorbs(a, b);
    } else {
      assert Wrap16(Imm5(w)) == Imm5(w);
      AndAbsorbs(a, Wrap16(Imm5(w)));
    }
  }

  /** NOT: the destination gets the bitwise complement of the source, cc follows it. */
  lemma CycleNot(s: State, input: Char)
    requires Fetches(s, 0x9)
    ensures CanCycle(s)
    ensures var w, r := s.mem[s.pc], Cycle(s, input);
      var v := Complement16(s.reg[Bits8To6(w)]);
      Unsigned16(v) == 0xFFFF - Unsigned16(s.reg[Bits8To6(w)])
      && r.reg == s.reg[Bits11To9(w) := v] && r.cc == ConditionFor(v)
      && r.mem == s.mem && r.pc == s.pc + 1 && r.running
  {
  }

  /** NOT R0, R1 (pattern 0x907F, the word -0x6F81) with R1 zero leaves -1 in R0 and
      sets cc to N. */
  lemma NotOfZeroExample(s: State, input: Char)
    requires Wf(s) && s.running && 0 <= s.pc < MEMLEN && s.mem[s.pc] == Wrap16(0x907F) && s.reg[1] == 0
    ensures Fetches(s, 0x9)
    ensures Cycle(s, input).reg[0] == -1 && Cycle(s, input).cc == 4
  {
    CycleNot(s, input);
  }

  /** LEA: the destination gets the narrowed address pc + offset9, cc follows it, and
      memory is not read or written. */
  lemma CycleLea(s: State, input: Char)
    requires Fetches(s, 0xE)
    ensures CanCycle(s)
    ensures var w, r := s.mem[s.pc], Cycle(s, input);
      var v := Wrap16(s.pc + 1 + Offset9(w));
      r.reg == s.reg[Bits11To9(w) := v] && r.cc == ConditionFor(v)
      && r.mem == s.mem && r.pc == s.pc + 1 && r.running
  {
  }

  // ---------------------------------------------------------------------------
  // Loads and stores.

  /** LD reads the cell at pc + offset9 into the destination; only it and cc change. */
  lemma CycleLd(s: State, input: Char)
    requires Fetches(s, 0x2) && 0 <= s.pc + 1 + Offset9(s.mem[s.pc]) < MEMLEN
    ensures CanCycle(s)
    ensures var w, r := s.mem[s.pc], Cycle(s, input);
      var v := s.mem[s.pc + 1 + Offset9(w)];
      r.reg == s.reg[Bits11To9(w) := v] && r.cc == ConditionFor(v)
      && r.mem == s.mem && r.pc == s.pc + 1 && r.running
  {
  }

  /** ST writes the source register to pc + offset9 and sets cc from it; no register
      changes. */
  lemma CycleSt(s: State, input: Char)
    requires Fetches(s, 0x3) && 0 <= s.pc + 1 + Offset9(s.mem[s.pc]) < MEMLEN
    ensures CanCycle(s)
    ensures var w, r := s.mem[s.pc], Cycle(s, input);
      var v := s.reg[Bits11To9(w)];
      r.mem == s.mem[s.pc + 1 + Offset9(w) := v] && r.cc == ConditionFor(v)
      && r.reg == s.reg && r.pc == s.pc + 1 && r.running
  {
  }

  /** LDR reads the cell at base register + offset6 into the destination. */
  lemma CycleLdr(s: State, input: Char)
    requires Fetches(s, 0x6)
    requires 0 <= s.reg[Bits8To6(s.mem[s.pc])] + Offset6(s.mem[s.pc]) < MEMLEN
    ensures CanCycle(s)
    ensures var w, r := s.mem[s.pc], Cycle(s, input);
      var v := s.mem[s.reg[Bits8To6(w)] + Offset6(w)];
      r.reg == s.reg[Bits11To9(w) := v] && r.cc == ConditionFor(v)
      && r.mem == s.mem && r.pc == s.pc + 1 && r.running
  {
  }

  /** STR writes the source register to base register + offset6 and sets cc from it. */
  lemma CycleStr(s: State, input: Char)
    requires Fetches(s, 0x7)
    requires 0 <= s.reg[Bits8To6(s.mem[s.pc])] + Offset6(s.mem[s.pc]) < MEMLEN
    ensures CanCycle(s)
    ensures var w, r := s.mem[s.pc], Cycle(s, input);
      var v := s.reg[Bits11To9(w)];
      r.mem == s.mem[s.reg[Bits8To6(w)] + Offset6(w) := v] && r.cc == ConditionFor(v)
      && r.reg == s.reg && r.pc == s.pc + 1 && r.running
  {
  }

  /** LDI reads through the pointer stored at the raw offset9 (not pc + offset9). */
  lemma CycleLdi(s: State, input: Char)
    requires Fetches(s, 0xA)
    requires 0 <= Offset9(s.mem[s.pc]) && 0 <= s.mem[Offset9(s.mem[s.pc])]
    ensures CanCycle(s)
    ensures var w, r := s.mem[s.pc], Cycle(s, input);
      var v := s.mem[s.mem[Offset9(w)]];
      r.reg == s.reg[Bits11To9(w) := v] && r.cc == ConditionFor(v)
      && r.mem == s.mem && r.pc == s.pc + 1 && r.running
  {
  }

  /** STI ignores its offset: it writes the source register through the pointer in
      the cell after the instruction. cc comes from the stored value unless the store
      overwrote that pointer, in which case it comes from the cell the new pointer
      names. */
  lemma CycleSti(s: State, input: Char)
    requires Fetches(s, 0xB) && s.pc + 1 < MEMLEN
    requires 0 <= s.mem[s.pc + 1]
    requires s.mem[s.pc + 1] == s.pc + 1 ==> 0 <= s.reg[Bits11To9(s.mem[s.pc])]
    ensures CanCycle(s)
    ensures var w, r := s.mem[s.pc], Cycle(s, input);
      var p, v := s.mem[s.pc + 1], s.reg[Bits11To9(w)];
      r.mem == s.mem[p := v] && r.reg == s.reg && r.pc == s.pc + 1 && r.running
      && (p != s.pc + 1 ==> r.cc == ConditionFor(v))
      && (p == s.pc + 1 ==> r.cc == ConditionFor(r.mem[v]))
  {
  }

  // ---------------------------------------------------------------------------
  // JMP and TRAP.

  /** JMP overwrites the base register named by bits 7-6 with the narrowed pc and
      reloads pc from it: control does not leave the next instruction's address. */
  lemma CycleJmp(s: State, input: Char)
    requires Fetches(s, 0xC)
    ensures CanCycle(s)
    ensures var w, r := s.mem[s.pc], Cycle(s, input);
      r.reg == s.reg[JmpBase(w) := Wrap16(s.pc + 1)] && r.pc == Wrap16(s.pc + 1)
      && r.mem == s.mem && r.cc == s.cc && r.running
  {
  }

  /** TRAP links R7 and returns to it. HALT (0x25) and 0x24 stop the CPU; GETC (0x20)
      and IN (0x23) put the input character in R0; OUT, PUTS and unknown vectors
      change nothing else. Memory and cc are never touched. */
  lemma CycleTrap(s: State, input: Char)
    requires Fetches(s, 0xF)
    requires TrapVector(s.mem[s.pc]) == 0x22 ==> Terminated(s.mem, s.reg[0])
    ensures CanCycle(s)
    ensures var vector, r := TrapVector(s.mem[s.pc]), Cycle(s, input);
      var linked := s.reg[7 := Wrap16(s.pc + 1)];
      r.pc == Wrap16(s.pc + 1) && r.mem == s.mem && r.cc == s.cc
      && (r.running <==> !(vector == 0x24 || vector == 0x25))
      && r.reg == (if vector == 0x20 || vector == 0x23 then linked[0 := input] else linked)
  {
  }

  /** OUT prints R0; PUTS prints the memory from R0 up to, not including, the first
      zero cell; no other instruction prints. */
  lemma CyclePrints(s: State)
    requires Wf(s) && s.running && 0 <= s.pc < MEMLEN && CanCycle(s)
    ensures var w := s.mem[s.pc];
      (Opcode(w) != 0xF ==> CyclePrinted(s) == [])
      && (Opcode(w) == 0xF && TrapVector(w) == 0x21 ==> CyclePrinted(s) == [s.reg[0] as int])
      && (Opcode(w) == 0xF && TrapVector(w) == 0x22 ==>
            var text, from := CyclePrinted(s), s.reg[0] as int;
            from + |text| < MEMLEN && text == s.mem[from..from + |text|]
            && s.mem[from + |text|] == 0 && forall i :: from <= i < from + |text| ==> s.mem[i] != 0)
  {
    var w := s.mem[s.pc];
    if Opcode(w) == 0xF && TrapVector(w) == 0x22 {
      StringAtIsSlice(s.mem, s.reg[0]);
    }
  }

  // ---------------------------------------------------------------------------
  // Loading, the cycle count and the patch commands.

  /** initialize_memory places the words from the origin on, narrowed, zeroes the
      cells after them, leaves the cells below the origin as they were, and sets pc
      to the origin. */
  lemma LoadPlacesWords(s: State, origin: nat, words: seq<int>)
    requires Wf(s) && origin + |words| <= MEMLEN
    ensures var r := Load(s, origin, words);
      r.pc == origin && r.origin == origin && r.reg == s.reg
      && r.cc == s.cc && r.running == s.running && r.ir == s.ir && r.opcode == s.opcode
      && (forall i :: 0 <= i < |words| ==> r.mem[origin + i] == Wrap16(words[i]))
      && (forall a :: origin + |words| <= a < MEMLEN ==> r.mem[a] == 0)
      && (forall a :: 0 <= a < origin ==> r.mem[a] == s.mem[a])
  {
  }

  /** A loaded program that starts at its origin fetches its first word. */
  lemma LoadThenFetch(s: State, origin: nat, words: seq<int>)
    requires Wf(s) && origin + |words| <= MEMLEN && |words| > 0
    ensures var r := Fetch(Load(s, origin, words));
      r.ir == Wrap16(words[0]) && r.pc == origin + 1 && r.opcode == Opcode(Wrap16(words[0]))
  {
    assert Load(s, origin, words).mem[origin] == Wrap16(words[0]);
  }

  /** The console accepts a count n exactly when 1 <= n and n cycles without a jump,
      from a pc inside memory, would fetch only up to pc + n - 1 < MEMLEN. */
  lemma CycleCountBounds(n: int, pc: int)
    requires 0 <= pc
    ensures CycleCountAccepted(n, pc) <==> 1 <= n && pc + n - 1 < MEMLEN
  {
  }

  /** jump_command restarts a halted CPU at the address given, and its next cycle
      fetches from there. */
  lemma JumpPatchResumes(s: State, address: int)
    requires Wf(s) && 0 <= address < MEMLEN
    ensures var r := JumpPatch(s, address);
      r.running && Fetch(r).ir == s.mem[address] && Fetch(r).pc == address + 1
      && r.mem == s.mem && r.reg == s.reg && r.cc == s.cc
  {
  }

  /** register_command and memory_command change exactly the named register or cell,
      to the narrowed value, which then reads back as that value. */
  lemma PatchesChangeOnlyTheirTarget(s: State, r: int, address: int, value: int)
    requires Wf(s) && 0 <= r < NREG && 0 <= address < MEMLEN
    ensures var t := RegisterPatch(s, r, value);
      t.reg[r] == Wrap16(value) && (-0x8000 <= value < 0x8000 ==> t.reg[r] == value)
      && (forall i :: 0 <= i < NREG && i != r ==> t.reg[i] == s.reg[i]) && t.mem == s.mem
    ensures var t := MemoryPatch(s, address, value);
      t.mem[address] == Wrap16(value) && (-0x8000 <= value < 0x8000 ==> t.mem[address] == value)
      && (forall a :: 0 <= a < MEMLEN && a != address ==> t.mem[a] == s.mem[a]) && t.reg == s.reg
  {
  }
}
