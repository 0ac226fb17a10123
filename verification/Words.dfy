/** 64-bit two's-complement words: the integer values that the two-register IR works on.
    Every operation wraps, truncates or traps the way the emitted x86-64 instruction does. */
module Words {

  const TWO63: int := 0x8000_0000_0000_0000
  const TWO64: int := 0x1_0000_0000_0000_0000

  const WORD_BITS: nat := 64

  type Word = x: int | -0x8000_0000_0000_0000 <= x < 0x8000_0000_0000_0000

  datatype Option<+T> = None | Some(value: T)

  /** The representative of x modulo 2^64 that lies in the signed range. */
  function Wrap(x: int): Word {
    (x + TWO63) % TWO64 - TWO63
  }

  /** The unsigned reading of a word. */
  function Bits(a: Word): nat {
    if a < 0 then a + TWO64 else a
  }

  function Pow2(k: nat): nat {
    if k == 0 then 1 else 2 * Pow2(k - 1)
  }

  function FromBool(b: bool): Word {
    if b then 1 else 0
  }

  /** The quotient of idiv: rounded toward zero. */
  function TruncDiv(a: int, b: int): int
    requires b != 0
  {
    if a >= 0 then a / b else -((-a) / b)
  }

  function TruncMod(a: int, b: int): int
    requires b != 0
  {
    a - b * TruncDiv(a, b)
  }

  /** idiv faults on a zero divisor and on the one quotient that does not fit. */
  predicate DivFaults(a: Word, b: Word) {
    b == 0 || (a == -TWO63 && b == -1)
  }

  datatype Bitwise = BitAnd | BitOr | BitXor

  function BitOf(op: Bitwise, x: nat, y: nat): nat
    requires x < 2 && y < 2
  {
    match op
    case BitAnd => if x == 1 && y == 1 then 1 else 0
    case BitOr => if x == 1 || y == 1 then 1 else 0
    case BitXor => if x != y then 1 else 0
  }

  /** The operation applied bit by bit to two unsigned numbers. */
  function BitsOp(op: Bitwise, x: nat, y: nat): nat
    decreases x + y
  {
    if x == 0 && y == 0 then 0 else BitOf(op, x % 2, y % 2) + 2 * BitsOp(op, x / 2, y / 2)
  }

  function BitwiseWord(op: Bitwise, a: Word, b: Word): Word {
    Wrap(BitsOp(op, Bits(a), Bits(b)))
  }

  /** sal and sar look at the six lowest bits of the count only. */
  function ShiftCount(b: Word): nat {
    b % WORD_BITS
  }

  function ShiftLeft(a: Word, b: Word): Word {
    Wrap(a * Pow2(ShiftCount(b)))
  }

  function ShiftRight(a: Word, b: Word): Word {
    Pow2Positive(ShiftCount(b));
    Wrap(a / Pow2(ShiftCount(b)))
  }

  lemma Pow2Positive(k: nat)
    ensures Pow2(k) > 0
  {
  }

  lemma WrapOfWord(a: Word)
    ensures Wrap(a) == a
  {
  }

  /** On truth values the word operations are the boolean ones. */
  lemma BitwiseOnBools(p: bool, q: bool)
    ensures BitwiseWord(BitAnd, FromBool(p), FromBool(q)) == FromBool(p && q)
    ensures BitwiseWord(BitOr, FromBool(p), FromBool(q)) == FromBool(p || q)
  {
    assert BitsOp(BitAnd, 0, 0) == 0 && BitsOp(BitOr, 0, 0) == 0;
  }
}
