/** Reading a zero-terminated string out of a machine memory, as the LC-3 PUTS trap
    and the decimal machine's print-string service do: characters are taken from
    successive cells until a cell holding 0 is reached. */
module ZeroTerminated {

  /** Some cell at or after `from` holds 0, so the reading loop stops inside memory:
      either the cell at `from` is the zero, or the search goes on from the next one. */
  predicate Terminated(mem: seq<int>, from: int)
    decreases |mem| - from
  {
    0 <= from < |mem| && (mem[from] == 0 || Terminated(mem, from + 1))
  }

  /** Terminated says, cell by cell, that a zero lies between `from` and the end. */
  lemma {:induction false} TerminatedMeansZeroAhead(mem: seq<int>, from: int)
    ensures Terminated(mem, from) <==>
      0 <= from < |mem| && exists k :: from <= k < |mem| && mem[k] == 0
    decreases |mem| - from
  {
    if 0 <= from < |mem| && mem[from] != 0 {
      TerminatedMeansZeroAhead(mem, from + 1);
      if exists k :: from <= k < |mem| && mem[k] == 0 {
        var k :| from <= k < |mem| && mem[k] == 0;
        assert k != from;
      }
    }
  }

  /** The cells read before the first zero at or after `from`. */
  function StringAt(mem: seq<int>, from: int): (text: seq<int>)
    requires Terminated(mem, from)
    decreases |mem| - from
  {
    if mem[from] == 0 then [] else [mem[from]] + StringAt(mem, from + 1)
  }

  /** The string is the memory slice up to the first zero: it holds no zero, and the
      cell right after it is the terminating zero. */
  lemma {:induction false} StringAtIsSlice(mem: seq<int>, from: int)
    requires Terminated(mem, from)
    ensures from + |StringAt(mem, from)| < |mem|
    ensures StringAt(mem, from) == mem[from..from + |StringAt(mem, from)|]
    ensures mem[from + |StringAt(mem, from)|] == 0
    ensures forall i :: from <= i < from + |StringAt(mem, from)| ==> mem[i] != 0
    decreases |mem| - from
  {
    if mem[from] != 0 {
      var rest := StringAt(mem, from + 1);
      StringAtIsSlice(mem, from + 1);
      assert StringAt(mem, from) == [mem[from]] + rest;
      assert mem[from..from + 1 + |rest|] == [mem[from]] + mem[from + 1..from + 1 + |rest|];
    }
  }
}
