/** Two's complement 16-bit words, as the LC-3 simulator keeps them in `short int`
    cells, and the arithmetic it does on them: narrowing stores, sign extension of
    instruction fields, bitwise AND and complement. */
module Words {

  /** `short int`: memory cells, registers and the instruction register. */
  type Word = w: int | -0x8000 <= w < 0x8000

  /** 2 to the power n. */
  function Pow2(n: nat): (p: int)
    ensures p >= 1
  {
    if n == 0 then 1 else 2 * Pow2(n - 1)
  }

  /** Storing an `int` into a `short`: the value is reduced modulo 2^16 into the
      signed range (the conversion every two's complement C compiler performs). */
  function Wrap16(x: int): (w: Word)
    ensures (w - x) % 0x10000 == 0
    ensures -0x8000 <= x < 0x8000 ==> w == x
  {
    (x + 0x8000) % 0x10000 - 0x8000
  }

  /** The only word congruent to x modulo 2^16 is Wrap16(x). */
  lemma WrapUnique(x: int, w: Word)
    requires (w - x) % 0x10000 == 0
    ensures Wrap16(x) == w
  {
    var d := w - Wrap16(x);
    assert d % 0x10000 == 0;
    assert -0x10000 < d < 0x10000;
  }

  /** Narrowing an intermediate sum does not change the final narrowed result. */
  lemma WrapOfSum(x: int, y: int)
    ensures Wrap16(Wrap16(x) + y) == Wrap16(x + y)
  {
    var w := Wrap16(Wrap16(x) + y);
    assert (w - (Wrap16(x) + y)) % 0x10000 == 0;
    assert (Wrap16(x) - x) % 0x10000 == 0;
    assert (w - (x + y)) % 0x10000 == 0;
    WrapUnique(x + y, w);
  }

  /** The 16-bit pattern of a word, read as an unsigned number (`w & 0xFFFF`). */
  function Unsigned16(w: Word): (u: nat)
    ensures u < 0x10000
    ensures Wrap16(u) == w
    ensures w >= 0 ==> u == w
  {
    if w < 0 then w + 0x10000 else w
  }

  /** Bitwise AND of two naturals, one binary digit at a time. */
  function BitAnd(a: nat, b: nat): (r: nat)
    ensures r <= a && r <= b
    decreases a
  {
    if a == 0 || b == 0 then 0
    else 2 * BitAnd(a / 2, b / 2) + (if a % 2 == 1 && b % 2 == 1 then 1 else 0)
  }

  /** ANDing again with either operand changes nothing. */
  lemma {:induction false} BitAndAbsorbs(a: nat, b: nat)
    ensures BitAnd(BitAnd(a, b), b) == BitAnd(a, b)
    ensures BitAnd(a, BitAnd(a, b)) == BitAnd(a, b)
    decreases a
  {
    if a != 0 && b != 0 {
      BitAndAbsorbs(a / 2, b / 2);
    }
  }

  /** AND is commutative. */
  lemma {:induction false} BitAndCommutes(a: nat, b: nat)
    ensures BitAnd(a, b) == BitAnd(b, a)
    decreases a
  {
    if a != 0 && b != 0 {
      BitAndCommutes(a / 2, b / 2);
    }
  }

  /** AND of a number with itself is the number. */
  lemma {:induction false} BitAndSelf(a: nat)
    ensures BitAnd(a, a) == a
    decreases a
  {
    if a != 0 {
      BitAndSelf(a / 2);
    }
  }

  /** ANDing with a single bit 1, 2 or 4 keeps exactly that bit of the other operand. */
  lemma BitAndSingleBit(x: nat)
    ensures BitAnd(1, x) == x % 2
    ensures BitAnd(2, x) == 2 * (x / 2 % 2)
    ensures BitAnd(4, x) == 4 * (x / 4 % 2)
  {
    assert BitAnd(1, x / 2) == x / 2 % 2 by {
      if x / 2 != 0 { assert BitAnd(0, x / 4) == 0; }
    }
    assert BitAnd(1, x / 4) == x / 4 % 2 by {
      if x / 4 != 0 { assert BitAnd(0, x / 8) == 0; }
    }
    if x != 0 {
      assert BitAnd(0, x / 2) == 0;
      assert BitAnd(2, x) == 2 * BitAnd(1, x / 2);
      assert x / 2 / 2 == x / 4;
      if x / 2 != 0 {
        assert BitAnd(2, x / 2) == 2 * BitAnd(1, x / 4);
      }
      assert BitAnd(4, x) == 2 * BitAnd(2, x / 2);
    }
  }

  /** `a & b` on two `short` operands promoted to `int` and stored back into a
      `short`: the AND of their 16-bit patterns, read back as a signed word. */
  function And16(a: Word, b: Word): (r: Word)
    ensures Unsigned16(r) == BitAnd(Unsigned16(a), Unsigned16(b))
  {
    Wrap16(BitAnd(Unsigned16(a), Unsigned16(b)))
  }

  /** Repeating an AND with one of its own operands gives the same result: this is
      why the AND handler's doubled assignment is harmless under aliasing. */
  lemma AndAbsorbs(a: Word, b: Word)
    ensures And16(And16(a, b), b) == And16(a, b)
    ensures And16(a, And16(a, b)) == And16(a, b)
  {
    BitAndAbsorbs(Unsigned16(a), Unsigned16(b));
  }

  /** AND of words is commutative, and ANDing a word with itself gives the word. */
  lemma AndCommutesAndIsIdempotent(a: Word, b: Word)
    ensures And16(a, b) == And16(b, a)
    ensures And16(a, a) == a
  {
    BitAndCommutes(Unsigned16(a), Unsigned16(b));
    BitAndSelf(Unsigned16(a));
  }

  /** `~w` on a `short` promoted to `int`: in two's complement, -1 - w. Its 16-bit
      pattern has exactly the bits set that w's pattern has clear. */
  function Complement16(w: Word): (r: Word)
    ensures Unsigned16(r) == 0xFFFF - Unsigned16(w)
    ensures r < 0 <==> w >= 0
  {
    -1 - w as int
  }

  /** Sign extension of a width-bit two's complement field: when the field's top bit
      is set, 2^width is subtracted. The result is the number whose width-bit
      encoding the field is. */
  function SignExtend(field: nat, width: nat): (v: int)
    requires 1 <= width && field < Pow2(width)
    ensures -Pow2(width - 1) <= v < Pow2(width - 1)
    ensures v < 0 <==> field >= Pow2(width - 1)
    ensures field == if v < 0 then v + Pow2(width) else v
  {
    if field >= Pow2(width - 1) then field - Pow2(width) else field
  }

  /** Encoding a value in width bits and sign-extending it gives the value back. */
  lemma SignExtendEncoding(v: int, width: nat)
    requires 1 <= width && -Pow2(width - 1) <= v < Pow2(width - 1)
    ensures (if v < 0 then v + Pow2(width) else v) < Pow2(width)
    ensures SignExtend(if v < 0 then v + Pow2(width) else v, width) == v
  {
  }
}
