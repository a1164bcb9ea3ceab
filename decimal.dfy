/** The decimal toy machine (in the style of the Little Man Computer) as a state
    machine: ten `int` registers, a hundred `int` memory cells, pc, ir and the
    running flag; decimal decoding of a fetched word; the instruction switch; runs
    of several cycles; and the loader that fills memory from a stream of integers.

    Integers are unbounded: the machine's additions and negation are taken to stay
    inside the range of C's `int`. */
module Decimal {
  import opened ZeroTerminated

  /** Number of memory cells. */
  const MEMLEN: int := 100
  /** Number of registers. */
  const NREG: int := 10
  /** The largest magnitude the loader accepts; anything larger ends the program. */
  const SENTINEL_BOUND: int := 9999

  /** What `getchar` returns: a byte, or EOF (-1). */
  type InputChar = c: int | -1 <= c < 0x100

  /** The globals `pc`, `ir`, `running`, `reg[NREG]` and `mem[MEMLEN]`. */
  datatype State = State(mem: seq<int>, reg: seq<int>, pc: int, ir: int, running: bool)

  /** The arrays have their fixed sizes, and pc is never negative (it starts at 0,
      only grows by one, and jumps go to an address 0..99). */
  predicate Wf(s: State) {
    |s.mem| == MEMLEN && |s.reg| == NREG && 0 <= s.pc
  }

  // ---------------------------------------------------------------------------
  // Decoding: a word is a sign and a decimal magnitude OP R MM.

  /** `instr_sign`: -1 for a negative word, 1 for a positive one. For the zero word
      C leaves it unset; that word has opcode 0, whose handler does not read it. */
  function Sign(w: int): (sign: int)
    ensures w < 0 ==> sign == -1
    ensures w > 0 ==> sign == 1
  {
    if w < 0 then -1 else if w > 0 then 1 else 0
  }

  /** `addr_MM * instr_sign`, for a sign of -1, 0 or 1. */
  function Signed(mm: nat, sign: int): (v: int)
    ensures sign == 1 ==> v == mm
    ensures sign == -1 ==> v == -(mm as int)
  {
    if sign < 0 then -(mm as int) else if sign > 0 then mm else 0
  }

  /** `ir` after the fetch: the magnitude of the word. */
  function Magnitude(w: int): (m: nat)
    ensures m == w || m == -w
  {
    if w < 0 then -w else w
  }

  /** `ir / 1000`: the thousands and everything above. */
  function OpcodeOf(ir: nat): nat {
    ir / 1000
  }

  /** `(ir % 1000) / 100`: the hundreds digit. */
  function RegisterOf(ir: nat): (r: nat)
    ensures r < NREG
  {
    ir % 1000 / 100
  }

  /** `ir % 100`: the last two digits. */
  function AddressOf(ir: nat): (a: nat)
    ensures a < MEMLEN
  {
    ir % 100
  }

  // ---------------------------------------------------------------------------
  // The cycle.

  /** exec_HLT. */
  function Halt(s: State): State {
    s.(running := false)
  }

  /** The fetch: `ir = mem[pc++]`, and a negative ir is negated. */
  function Fetch(s: State): (r: State)
    requires Wf(s) && s.pc < MEMLEN
    ensures Wf(r) && 0 <= r.ir
  {
    s.(ir := Magnitude(s.mem[s.pc]), pc := s.pc + 1)
  }

  /** The print-string service reads from MM up to a zero cell, with no bound of its
      own; every other instruction stays inside the arrays. */
  predicate Defined(s: State)
    requires Wf(s) && 0 <= s.ir
  {
    OpcodeOf(s.ir) == 9 && RegisterOf(s.ir) == 2 ==> Terminated(s.mem, AddressOf(s.ir))
  }

  /** The switch of one_instruction_cycle, on the state after the fetch, with the
      fetched word's sign and the character the console would supply. */
  function Execute(s: State, sign: int, input: InputChar): (r: State)
    requires Wf(s) && 0 <= s.ir
    ensures Wf(r)
  {
    var R, MM := RegisterOf(s.ir), AddressOf(s.ir);
    match OpcodeOf(s.ir)
    case 0 => Halt(s)
    case 1 => s.(reg := s.reg[R := s.mem[MM]])
    case 2 => s.(mem := s.mem[MM := s.reg[R]])
    case 3 => s.(reg := s.reg[R := s.reg[R] + s.mem[MM]])
    case 4 => s.(reg := s.reg[R := -s.reg[R]])
    case 5 => s.(reg := s.reg[R := Signed(MM, sign)])
    case 6 => s.(reg := s.reg[R := s.reg[R] + Signed(MM, sign)])
    case 7 => s.(pc := MM)
    case 8 =>
      if (s.reg[R] > 0 && sign > 0) || (s.reg[R] < 0 && sign < 0) then s.(pc := MM) else s
    case 9 => if R == 0 then s.(reg := s.reg[0 := input]) else s
    case _ => s
  }

  /** What the executed instruction writes to the console: 9 with register digit 1
      prints R0, 9 with register digit 2 prints the zero-terminated string at MM. */
  function Printed(s: State): seq<int>
    requires Wf(s) && 0 <= s.ir && Defined(s)
  {
    var R, MM := RegisterOf(s.ir), AddressOf(s.ir);
    if OpcodeOf(s.ir) == 9 && R == 1 then [s.reg[0]]
    else if OpcodeOf(s.ir) == 9 && R == 2 then StringAt(s.mem, MM)
    else []
  }

  /** A cycle from s has defined behaviour: a halted machine does nothing; a running
      one fetches inside memory (the `pc >= memlen` guard halts but fetches anyway)
      and, for print-string, finds a terminating zero. */
  predicate CanCycle(s: State)
    requires Wf(s)
  {
    !s.running || (s.pc < MEMLEN && Defined(Fetch(s)))
  }

  /** one_instruction_cycle. */
  function Cycle(s: State, input: InputChar): (r: State)
    requires Wf(s) && CanCycle(s)
    ensures Wf(r)
  {
    if !s.running then s else Execute(Fetch(s), Sign(s.mem[s.pc]), input)
  }

  /** What one_instruction_cycle writes to the console. */
  function CyclePrinted(s: State): seq<int>
    requires Wf(s) && CanCycle(s)
  {
    if !s.running then [] else Printed(Fetch(s))
  }

  /** Every cycle of a run with these console inputs has defined behaviour. */
  predicate CanRun(s: State, inputs: seq<InputChar>)
    requires Wf(s)
    decreases |inputs|
  {
    |inputs| == 0 || (CanCycle(s) && CanRun(Cycle(s, inputs[0]), inputs[1..]))
  }

  /** |inputs| cycles, the i-th one reading inputs[i] if it reads the console. */
  function Run(s: State, inputs: seq<InputChar>): (r: State)
    requires Wf(s) && CanRun(s, inputs)
    ensures Wf(r)
    decreases |inputs|
  {
    if |inputs| == 0 then s else Run(Cycle(s, inputs[0]), inputs[1..])
  }

  /** Everything a run writes to the console, in order. */
  function RunPrinted(s: State, inputs: seq<InputChar>): seq<int>
    requires Wf(s) && CanRun(s, inputs)
    decreases |inputs|
  {
    if |inputs| == 0 then []
    else CyclePrinted(s) + RunPrinted(Cycle(s, inputs[0]), inputs[1..])
  }

  /** A defined run over inputs[i..n] is the cycle reading inputs[i], then the run
      over inputs[i + 1..n]: the step many_instruction_cycles takes each time round,
      with `done` standing for what earlier cycles printed. */
  lemma CycleAdvancesRun(s: State, inputs: seq<InputChar>, i: int, n: int, done: seq<int>)
    requires Wf(s) && 0 <= i < n <= |inputs| && CanRun(s, inputs[i..n])
    ensures CanCycle(s) && CanRun(Cycle(s, inputs[i]), inputs[i + 1..n])
    ensures Run(Cycle(s, inputs[i]), inputs[i + 1..n]) == Run(s, inputs[i..n])
    ensures (done + CyclePrinted(s)) + RunPrinted(Cycle(s, inputs[i]), inputs[i + 1..n])
      == done + RunPrinted(s, inputs[i..n])
  {
    assert inputs[i..n][0] == inputs[i] && inputs[i..n][1..] == inputs[i + 1..n];
    var rest := RunPrinted(Cycle(s, inputs[i]), inputs[i + 1..n]);
    assert RunPrinted(s, inputs[i..n]) == CyclePrinted(s) + rest;
    assert (done + CyclePrinted(s)) + rest == done + (CyclePrinted(s) + rest);
  }

  /** Any number of cycles of a halted machine are defined, change nothing and print
      nothing: this is why many_instruction_cycles may stop at the first halt. */
  lemma {:induction false} HaltedRunChangesNothing(s: State, inputs: seq<InputChar>)
    requires Wf(s) && !s.running
    ensures CanRun(s, inputs) && Run(s, inputs) == s && RunPrinted(s, inputs) == []
    decreases |inputs|
  {
    if |inputs| > 0 {
      HaltedRunChangesNothing(s, inputs[1..]);
    }
  }

  // ---------------------------------------------------------------------------
  // Initialisation, the loader and the console's cycle count.

  /** initialize_control_unit. */
  function InitControlUnit(s: State): (r: State)
    requires Wf(s)
    ensures Wf(r)
  {
    s.(reg := seq(NREG, _ => 0), pc := 0, running := true, ir := 0)
  }

  /** A value the loader stores; any other value is the sentinel that ends loading. */
  predicate InRange(v: int) {
    -SENTINEL_BOUND <= v <= SENTINEL_BOUND
  }

  /** The number of values before the first out-of-range one (all of them if there is
      none), characterised without recursion. */
  function LeadingInRange(values: seq<int>): (k: nat)
    ensures k <= |values|
    ensures forall i :: 0 <= i < k ==> InRange(values[i])
    ensures k < |values| ==> !InRange(values[k])
    decreases |values|
  {
    if |values| == 0 || !InRange(values[0]) then 0
    else 1 + LeadingInRange(values[1..])
  }

  /** The value-loading loop of initialize_memory, from location loc on, with the
      memory-bound test `loc > limit`: the location at which it stops. `values` are
      the integers parsed from the file, in order (lines that do not start with an
      integer are skipped before this point). */
  function StoredCount(values: seq<int>, limit: int, loc: nat): (count: nat)
    requires loc <= |values|
    ensures loc <= count <= |values|
    decreases |values| - loc
  {
    if loc == |values| || loc > limit || !InRange(values[loc]) then loc
    else StoredCount(values, limit, loc + 1)
  }

  /** From any location not past the stopping point, the loop stops at the first
      out-of-range value, the end of the values, or location limit + 1, whichever
      comes first. */
  lemma {:induction false} StoredCountStopsAtFirstBound(values: seq<int>, limit: int, loc: nat)
    requires -1 <= limit
    requires loc <= LeadingInRange(values) && loc <= limit + 1
    ensures StoredCount(values, limit, loc) == Min(LeadingInRange(values), limit + 1)
    decreases |values| - loc
  {
    if loc < LeadingInRange(values) && loc < limit + 1 {
      StoredCountStopsAtFirstBound(values, limit, loc + 1);
    }
  }

  function Min(a: int, b: int): int {
    if a < b then a else b
  }

  /** The loop exactly as written, with `loc > memlen`. */
  function StoredCountAsWritten(values: seq<int>): (count: nat)
    ensures count == Min(LeadingInRange(values), MEMLEN + 1)
  {
    StoredCountStopsAtFirstBound(values, MEMLEN, 0);
    StoredCount(values, MEMLEN, 0)
  }

  /** The as-written bound lets a 101st in-range value through, and it is stored at
      mem[100], one past the end of memory. */
  lemma LoaderOverrunsMemory()
    ensures var values := seq(MEMLEN + 1, _ => 0);
      StoredCountAsWritten(values) == MEMLEN + 1
      && values[MEMLEN] == 0 && InRange(values[MEMLEN])
  {
    var values: seq<int> := seq(MEMLEN + 1, _ => 0);
    assert LeadingInRange(values) == MEMLEN + 1;
  }

  /** The loop with the intended bound `loc >= memlen`: it stores at most MEMLEN
      values, all of them inside memory. */
  function StoredCountCorrected(values: seq<int>): (count: nat)
    ensures count <= MEMLEN
    ensures count == Min(LeadingInRange(values), MEMLEN)
  {
    StoredCountStopsAtFirstBound(values, MEMLEN - 1, 0);
    StoredCount(values, MEMLEN - 1, 0)
  }

  /** Whenever the as-written loop stays inside memory, it stores exactly what the
      corrected loop stores. */
  lemma LoaderBoundsAgreeInMemory(values: seq<int>)
    ensures StoredCountAsWritten(values) <= MEMLEN ==>
      StoredCountAsWritten(values) == StoredCountCorrected(values)
    ensures StoredCountAsWritten(values) > MEMLEN <==> LeadingInRange(values) > MEMLEN
  {
  }

  /** Memory after initialize_memory: the stored values from cell 0 on, zeros after. */
  function LoadedMemory(values: seq<int>): (mem: seq<int>)
    ensures |mem| == MEMLEN
  {
    var count := StoredCountCorrected(values);
    seq(MEMLEN, i requires 0 <= i < MEMLEN => if i < count then values[i] else 0)
  }

  /** initialize_memory: only memory changes. */
  function Load(s: State, values: seq<int>): (r: State)
    requires Wf(s)
    ensures Wf(r)
  {
    s.(mem := LoadedMemory(values))
  }

  /** The console's test on a requested number of cycles (read_execute_command). */
  predicate CycleCountAccepted(n: int, pc: int) {
    !(n < 1 || n > MEMLEN || n > MEMLEN - pc)
  }
}
