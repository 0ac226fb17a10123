/** Laws of 64-bit words that the optimizer's arithmetic rules rest on. */
module WordAlgebra {
  import opened Words
  import opened Lir

  /** Wrap picks the representative modulo 2^64. */
  lemma WrapAgain(x: int, y: int, k: int)
    requires x == y + k * TWO64
    ensures Wrap(x) == Wrap(y)
  {
    ModShift(y + TWO63, k);
  }

  lemma ModShift(x: int, k: int)
    ensures (x + k * TWO64) % TWO64 == x % TWO64
  {
    var q, r := x / TWO64, x % TWO64;
    assert x + k * TWO64 == (q + k) * TWO64 + r;
    DivModUnique(x + k * TWO64, q + k, r);
  }

  lemma DivModUnique(x: int, q: int, r: int)
    requires x == q * TWO64 + r && 0 <= r < TWO64
    ensures x % TWO64 == r
  {
  }

  /** How far a number is from its word, in multiples of 2^64. */
  function Turns(x: int): int {
    (x + TWO63) / TWO64
  }

  lemma WrapTurns(x: int)
    ensures x == Wrap(x) + Turns(x) * TWO64
  {
  }

  lemma AddAssociates(a: Word, x: Word, y: Word)
    ensures Wrap(Wrap(a + x) + y) == Wrap(a + Wrap(x + y))
  {
    WrapTurns(a + x);
    WrapTurns(x + y);
    WrapAgain(Wrap(a + x) + y, a + Wrap(x + y), Turns(x + y) - Turns(a + x));
  }

  lemma MulAssociates(a: Word, x: Word, y: Word)
    ensures Wrap(Wrap(a * x) * y) == Wrap(a * Wrap(x * y))
  {
    WrapTurns(a * x);
    WrapTurns(x * y);
    var k, l := Turns(a * x), Turns(x * y);
    Distribute(a, x, y, Wrap(a * x), k, Wrap(x * y), l);
    WrapAgain(Wrap(a * x) * y, a * Wrap(x * y), a * l - k * y);
  }

  lemma Distribute(a: int, x: int, y: int, u: int, k: int, v: int, l: int)
    requires a * x == u + k * TWO64 && x * y == v + l * TWO64
    ensures u * y == a * v + (a * l - k * y) * TWO64
  {
    assert (a * x) * y == a * (x * y);
    assert (u + k * TWO64) * y == u * y + (k * y) * TWO64;
    assert a * (v + l * TWO64) == a * v + (a * l) * TWO64;
    assert (a * l - k * y) * TWO64 == (a * l) * TWO64 - (k * y) * TWO64;
  }

  /** Multiplying by a word whose unsigned reading is 2^k shifts left by k. */
  lemma MulIsShift(a: Word, n: Word, k: Word)
    requires 0 <= k < WORD_BITS && Pow2(k) == Bits(n)
    ensures Wrap(a * n) == ShiftLeft(a, k)
  {
    if n < 0 {
      assert a * Bits(n) == a * n + a * TWO64;
      WrapAgain(a * Bits(n), a * n, a);
    }
  }

  // ----- Bitwise operations -----

  lemma {:induction false} BitsBelow(op: Bitwise, x: nat, y: nat, k: nat)
    requires x < Pow2(k) && y < Pow2(k)
    ensures BitsOp(op, x, y) < Pow2(k)
    decreases k
  {
    if k > 0 && !(x == 0 && y == 0) {
      BitsBelow(op, x / 2, y / 2, k - 1);
    }
  }

  lemma {:induction false} BitsAssociate(op: Bitwise, x: nat, y: nat, z: nat)
    ensures BitsOp(op, BitsOp(op, x, y), z) == BitsOp(op, x, BitsOp(op, y, z))
    decreases x + y + z
  {
    if x + y + z > 0 {
      BitsAssociate(op, x / 2, y / 2, z / 2);
      BitsHalf(op, x, y);
      BitsHalf(op, y, z);
      BitsHalf(op, BitsOp(op, x, y), z);
      BitsHalf(op, x, BitsOp(op, y, z));
    }
  }

  lemma BitsHalf(op: Bitwise, x: nat, y: nat)
    ensures BitsOp(op, x, y) / 2 == BitsOp(op, x / 2, y / 2)
    ensures BitsOp(op, x, y) % 2 == BitOf(op, x % 2, y % 2)
  {
  }

  lemma WordBits(x: nat)
    requires x < TWO64
    ensures Bits(Wrap(x)) == x
  {
  }

  lemma WordBound()
    ensures Pow2(WORD_BITS) == TWO64
  {
    assert Pow2(8) == 0x100;
    assert Pow2(16) == 0x1_0000;
    assert Pow2(24) == 0x100_0000;
    assert Pow2(32) == 0x1_0000_0000;
    assert Pow2(40) == 0x100_0000_0000;
    assert Pow2(48) == 0x1_0000_0000_0000;
    assert Pow2(56) == 0x100_0000_0000_0000;
  }

  lemma BitwiseAssociates(op: Bitwise, a: Word, x: Word, y: Word)
    ensures BitwiseWord(op, BitwiseWord(op, a, x), y) == BitwiseWord(op, a, BitwiseWord(op, x, y))
  {
    hide BitsOp, Pow2;
    WordBound();
    BitsBelow(op, Bits(a), Bits(x), WORD_BITS);
    BitsBelow(op, Bits(x), Bits(y), WORD_BITS);
    WordBits(BitsOp(op, Bits(a), Bits(x)));
    WordBits(BitsOp(op, Bits(x), Bits(y)));
    BitsAssociate(op, Bits(a), Bits(x), Bits(y));
  }

  /** Doing a commutative operation with two constants is doing it once with the two combined. */
  lemma OperationsCombine(op: Opcode, a: Word, x: Word, y: Word)
    requires op.ADD? || op.MUL? || op.AND? || op.OR? || op.XOR?
    ensures Alu(op, Alu(op, a, x).value, y) == Alu(op, a, Alu(op, x, y).value)
  {
    hide Wrap, BitwiseWord;
    match op
    case ADD => AddAssociates(a, x, y);
    case MUL => MulAssociates(a, x, y);
    case AND => BitwiseAssociates(BitAnd, a, x, y);
    case OR => BitwiseAssociates(BitOr, a, x, y);
    case XOR => BitwiseAssociates(BitXor, a, x, y);
  }

  /** Division rounds toward zero and the shift rounds down, so the shift is the quotient exactly
      when the dividend is not negative or the division by a positive power leaves no remainder. The
      power 2^63 is the least word when it is read with its sign. */
  lemma DivIsShift(a: Word, n: Word, k: Word)
    requires 0 < k < WORD_BITS && Pow2(k) == Bits(n)
    ensures !DivFaults(a, n)
    ensures Wrap(TruncDiv(a, n)) == ShiftRight(a, k) <==> a >= 0 || (n > 0 && a % n == 0)
  {
    hide Pow2, Wrap;
    AtLeastTwo(k);
    if n < 0 {
      NegativePower(n, k);
      DivByLeast(a);
    } else {
      QuotientFits(a, n);
      WrapOfWord(TruncDiv(a, n));
      WrapOfWord(a / n);
      if a < 0 {
        NegativeQuotient(a, n);
      }
    }
  }

  /** The only negative word whose unsigned reading is a power of two. */
  lemma NegativePower(n: Word, k: Word)
    requires n < 0 && 0 < k < WORD_BITS && Pow2(k) == Bits(n)
    ensures n == -TWO63 && Pow2(k) == TWO63
  {
    WordBound();
    if k < WORD_BITS - 1 {
      Pow2Monotone(k, WORD_BITS - 2);
    }
  }

  lemma {:induction false} Pow2Monotone(j: nat, k: nat)
    requires j <= k
    ensures Pow2(j) <= Pow2(k)
    decreases k
  {
    if j < k {
      Pow2Monotone(j, k - 1);
    }
  }

  lemma DivByLeast(a: Word)
    ensures Wrap(TruncDiv(a, -TWO63)) == Wrap(a / TWO63) <==> a >= 0
  {
  }

  lemma AtLeastTwo(k: nat)
    requires k > 0
    ensures Pow2(k) >= 2
  {
    Pow2Positive(k - 1);
  }

  lemma QuotientFits(a: Word, n: int)
    requires n >= 2
    ensures -TWO63 <= a / n < TWO63 && -TWO63 <= TruncDiv(a, n) < TWO63
  {
    var b: int := a;
    if b >= 0 {
      HalfAtMost(b, n);
    } else {
      HalfAtMost(-b, n);
      NegativeQuotient(b, n);
    }
  }

  lemma HalfAtMost(x: nat, n: int)
    requires n >= 2
    ensures 0 <= 2 * (x / n) <= x
  {
    var q := x / n;
    assert x == q * n + x % n;
    assert q * n == q * 2 + q * (n - 2);
  }

  lemma MultipleAtLeast(d: int, n: int)
    requires n >= 0
    ensures d >= 1 ==> d * n >= n
    ensures d <= -1 ==> d * n <= -n
  {
  }

  lemma NegativeQuotient(a: int, n: int)
    requires a < 0 && n > 0
    ensures a / n == (if a % n == 0 then -((-a) / n) else -((-a) / n) - 1)
  {
    var q, r := (-a) / n, (-a) % n;
    assert -a == q * n + r;
    if r == 0 {
      assert a == (-q) * n + 0;
      Unique(a, n, -q, 0);
    } else {
      assert a == (-q - 1) * n + (n - r);
      Unique(a, n, -q - 1, n - r);
    }
  }

  lemma Unique(a: int, n: int, q: int, r: int)
    requires n > 0 && a == q * n + r && 0 <= r < n
    ensures a / n == q && a % n == r
  {
    var d := a / n - q;
    assert d * n == (a / n) * n - q * n;
    MultipleAtLeast(d, n);
  }

  // ----- Constants that leave a bitwise operation simple -----

  lemma {:induction false} BitsWithZero(x: nat)
    ensures BitsOp(BitAnd, x, 0) == BitsOp(BitAnd, 0, x) == 0
    ensures BitsOp(BitOr, x, 0) == BitsOp(BitOr, 0, x) == x
    ensures BitsOp(BitXor, x, 0) == BitsOp(BitXor, 0, x) == x
    decreases x
  {
    if x > 0 {
      BitsWithZero(x / 2);
    }
  }

  lemma {:induction false} BitsWithOnes(x: nat, k: nat)
    requires x < Pow2(k)
    ensures BitsOp(BitAnd, x, Pow2(k) - 1) == BitsOp(BitAnd, Pow2(k) - 1, x) == x
    ensures BitsOp(BitOr, x, Pow2(k) - 1) == BitsOp(BitOr, Pow2(k) - 1, x) == Pow2(k) - 1
    decreases k
  {
    if k > 0 {
      BitsWithOnes(x / 2, k - 1);
      assert (Pow2(k) - 1) / 2 == Pow2(k - 1) - 1 && (Pow2(k) - 1) % 2 == 1;
    }
  }

  lemma {:induction false} BitsWithSelf(x: nat)
    ensures BitsOp(BitXor, x, x) == 0 && BitsOp(BitOr, x, x) == x
    decreases x
  {
    if x > 0 {
      BitsWithSelf(x / 2);
    }
  }

  /** 0 and -1, the word of ones, as operands of bitwise operations. */
  lemma BitwiseUnits(x: Word)
    ensures BitwiseWord(BitAnd, x, 0) == BitwiseWord(BitAnd, 0, x) == 0
    ensures BitwiseWord(BitOr, x, 0) == BitwiseWord(BitOr, 0, x) == x
    ensures BitwiseWord(BitXor, x, 0) == BitwiseWord(BitXor, 0, x) == x
    ensures BitwiseWord(BitAnd, x, -1) == BitwiseWord(BitAnd, -1, x) == x
    ensures BitwiseWord(BitOr, x, -1) == BitwiseWord(BitOr, -1, x) == -1
    ensures BitwiseWord(BitXor, x, x) == 0 && BitwiseWord(BitOr, x, x) == x
  {
    hide BitsOp, Pow2;
    WordBound();
    BitsWithZero(Bits(x));
    BitsWithOnes(Bits(x), WORD_BITS);
    BitsWithSelf(Bits(x));
  }

  /** How far from 0 a number of k bits is when it is read with its sign. */
  function SizeOf(u: int, k: nat): int {
    if u < Pow2(k) - u then u else Pow2(k) - u
  }

  function SignBit(u: int, k: nat): (b: nat)
    ensures b < 2
  {
    if u < Pow2(k) - u then 0 else 1
  }

  function Slack(op: Bitwise, first: nat, second: nat): nat {
    if first + second == 2 then (if op.BitXor? then 2 else 1)
    else if first + second == 1 && op.BitAnd? then 1 else 0
  }

  /** A bit more below a number of this sign. */
  function OneMore(size: int, sign: nat, bit: nat): int {
    2 * size + if sign == 0 then bit else 0 - bit
  }

  lemma HalfSize(u: nat, k: nat)
    requires k > 1
    ensures SignBit(u, k) == SignBit(u / 2, k - 1)
    ensures SizeOf(u, k) == OneMore(SizeOf(u / 2, k - 1), SignBit(u, k), u % 2)
  {
    assert Pow2(k) == 2 * Pow2(k - 1) && Pow2(k - 1) == 2 * Pow2(k - 2);
  }

  lemma OneMoreSize(op: Bitwise, a: nat, b: nat, x: nat, y: nat, m: int, n: int, r: int)
    requires a < 2 && b < 2 && x < 2 && y < 2 && r + Slack(op, x, y) <= m + n
    ensures OneMore(r, BitOf(op, x, y), BitOf(op, a, b)) + Slack(op, x, y) <= OneMore(m, x, a) + OneMore(n, y, b)
  {
  }

  /** Bitwise operations give nothing larger than their operands are together. */
  lemma {:induction false} BitsSize(op: Bitwise, u: nat, v: nat, k: nat)
    requires 0 < k && u < Pow2(k) && v < Pow2(k)
    ensures SizeOf(BitsOp(op, u, v), k) + Slack(op, SignBit(u, k), SignBit(v, k)) <= SizeOf(u, k) + SizeOf(v, k)
    ensures SignBit(BitsOp(op, u, v), k) == BitOf(op, SignBit(u, k), SignBit(v, k))
    decreases k
  {
    hide OneMore, Slack, SizeOf, SignBit, BitOf;
    if k == 1 {
      OneBit(op, u, v);
    } else {
      var r := BitsOp(op, u, v);
      BitsHalf(op, u, v);
      HalfSize(u, k);
      HalfSize(v, k);
      HalfSize(r, k);
      BitsSize(op, u / 2, v / 2, k - 1);
      OneMoreSize(op, u % 2, v % 2, SignBit(u, k), SignBit(v, k), SizeOf(u / 2, k - 1), SizeOf(v / 2, k - 1),
                  SizeOf(r / 2, k - 1));
    }
  }

  lemma OneBit(op: Bitwise, u: nat, v: nat)
    requires u < 2 && v < 2
    ensures SizeOf(BitsOp(op, u, v), 1) + Slack(op, SignBit(u, 1), SignBit(v, 1)) <= SizeOf(u, 1) + SizeOf(v, 1)
    ensures SignBit(BitsOp(op, u, v), 1) == BitOf(op, SignBit(u, 1), SignBit(v, 1))
  {
  }

  /** For words. */
  lemma BitwiseSize(op: Bitwise, x: Word, y: Word)
    ensures SizeOf(Bits(BitwiseWord(op, x, y)), WORD_BITS) <= SizeOf(Bits(x), WORD_BITS) + SizeOf(Bits(y), WORD_BITS)
  {
    hide BitsOp, Pow2, SizeOf;
    WordBound();
    BitsBelow(op, Bits(x), Bits(y), WORD_BITS);
    WordBits(BitsOp(op, Bits(x), Bits(y)));
    BitsSize(op, Bits(x), Bits(y), WORD_BITS);
  }

  lemma WordSize(x: Word)
    ensures SizeOf(Bits(x), WORD_BITS) == if x < 0 then 0 - x else x
  {
    hide Pow2;
    WordBound();
  }

  lemma {:induction false} BitsCommute(op: Bitwise, x: nat, y: nat)
    ensures BitsOp(op, x, y) == BitsOp(op, y, x)
    decreases x + y
  {
    if x + y > 0 {
      BitsCommute(op, x / 2, y / 2);
    }
  }

  lemma BitwiseCommutes(op: Bitwise, x: Word, y: Word)
    ensures BitwiseWord(op, x, y) == BitwiseWord(op, y, x)
  {
    BitsCommute(op, Bits(x), Bits(y));
  }

  // ----- Shifts -----

  lemma {:induction false} Pow2Sum(j: nat, k: nat)
    ensures Pow2(j + k) == Pow2(j) * Pow2(k)
    decreases j
  {
    if j > 0 {
      assert Pow2(j) == 2 * Pow2(j - 1) && Pow2(j + k) == 2 * Pow2(j - 1 + k);
      hide Pow2;
      Pow2Sum(j - 1, k);
      Doubled(Pow2(j - 1), Pow2(k));
    }
  }

  lemma Doubled(x: int, y: int)
    ensures (2 * x) * y == 2 * (x * y)
  {
  }

  lemma {:induction false} Pow2Less(j: nat, k: nat)
    requires j < k
    ensures Pow2(j) < Pow2(k)
    decreases k
  {
    Pow2Positive(k - 1);
    if j < k - 1 {
      Pow2Less(j, k - 1);
    }
  }

  lemma WrapTimes(u: int, k: int)
    ensures Wrap(Wrap(u) * k) == Wrap(u * k)
  {
    hide Wrap;
    WrapTurns(u);
    assert u * k == Wrap(u) * k + (Turns(u) * k) * TWO64;
    WrapAgain(u * k, Wrap(u) * k, Turns(u) * k);
  }

  /** Two shifts to the left are one by the sum. */
  lemma LeftTwice(a: int, p: nat, q: nat)
    ensures Wrap(Wrap(a * Pow2(p)) * Pow2(q)) == Wrap(a * Pow2(p + q))
  {
    hide Wrap, Pow2;
    WrapTimes(a * Pow2(p), Pow2(q));
    Pow2Sum(p, q);
    assert (a * Pow2(p)) * Pow2(q) == a * (Pow2(p) * Pow2(q));
  }

  /** Shifted by 64 or more to the left nothing is left. */
  lemma FarLeft(k: nat)
    requires k >= WORD_BITS
    ensures Wrap(Pow2(k)) == 0
  {
    hide Pow2, Wrap;
    WordBound();
    Pow2Sum(k - WORD_BITS, WORD_BITS);
    WrapAgain(Pow2(k), 0, Pow2(k - WORD_BITS));
    WrapOfWord(0);
  }

  lemma DivideTwice(a: int, m: int, n: int)
    requires m > 0 && n > 0
    ensures m * n > 0 && (a / m) / n == a / (m * n)
  {
    var q, r := a / m, a % m;
    var q', r' := q / n, q % n;
    assert a == q * m + r && q == q' * n + r';
    Regrouped(q', n, r', m);
    Unique(a, m * n, q', r' * m + r);
  }

  lemma Regrouped(q: int, n: int, r: int, m: int)
    requires m > 0 && 0 <= r < n
    ensures m * n > 0 && (q * n + r) * m == q * (m * n) + r * m && 0 <= r * m <= m * n - m
  {
    MultipleAtLeast(n - r, m);
    MultipleAtLeast(r, m);
    assert (n - r) * m == m * n - r * m;
  }

  /** Two shifts to the right are one by the sum. */
  lemma RightTwice(a: int, p: nat, q: nat)
    ensures Pow2(p) > 0 && Pow2(q) > 0 && Pow2(p + q) > 0
    ensures a / Pow2(p) / Pow2(q) == a / Pow2(p + q)
  {
    hide Pow2;
    Pow2Positive(p);
    Pow2Positive(q);
    Pow2Sum(p, q);
    DivideTwice(a, Pow2(p), Pow2(q));
  }

  lemma QuotientIsWord(a: Word, k: nat)
    ensures Pow2(k) > 0 && -TWO63 <= a / Pow2(k) < TWO63
  {
    if k > 0 {
      AtLeastTwo(k);
      QuotientFits(a, Pow2(k));
    }
  }

  /** The shift is printed as one that keeps the sign, for unsigned operands too: it is their quotient
      exactly when the dividend's highest bit is 0. */
  lemma UnsignedDivIsShift(a: Word, n: Word, k: Word)
    requires 0 < k < WORD_BITS && Pow2(k) == Bits(n)
    ensures Bits(n) > 0 && (Bits(a) / Bits(n) == Bits(ShiftRight(a, k)) <==> a >= 0)
  {
    hide Pow2, Wrap;
    AtLeastTwo(k);
    QuotientFits(a, Pow2(k));
    WrapOfWord(a / Pow2(k));
    SignsOfQuotients(a, Pow2(k));
  }

  /** Read without its sign a negative word is larger, its half is not. */
  lemma SignsOfQuotients(a: Word, m: int)
    requires m >= 2
    ensures a / m < 0 <==> a < 0
    ensures 0 <= Bits(a) / m < TWO63
  {
    HalfAtMost(Bits(a), m);
    assert a == (a / m) * m + a % m;
    MultipleAtLeast(a / m, m);
  }

  /** Shifted by 63 or more to the right only the sign is left. */
  lemma FarRight(a: Word, k: nat)
    requires k >= WORD_BITS - 1
    ensures Pow2(k) > 0 && a / Pow2(k) == if a < 0 then -1 else 0
  {
    hide Pow2;
    WordBound();
    Pow2Half();
    Pow2Monotone(WORD_BITS - 1, k);
    var v := if a < 0 then -1 else 0;
    Unique(a, Pow2(k), v, a - v * Pow2(k));
  }

  lemma Pow2Half()
    ensures Pow2(WORD_BITS - 1) == TWO63
  {
    WordBound();
    assert Pow2(WORD_BITS) == 2 * Pow2(WORD_BITS - 1);
  }

  // ----- What the operations mean -----

  /** Quotients round toward zero and remainders have the sign of the dividend. */
  lemma DivisionTruncates(a: int, b: int)
    requires b != 0
    ensures a == b * TruncDiv(a, b) + TruncMod(a, b)
    ensures TruncMod(a, b) == 0 || (TruncMod(a, b) < 0 <==> a < 0)
    ensures -Absolute(b) < TruncMod(a, b) < Absolute(b)
  {
    var m := if a >= 0 then a else 0 - a;
    var q, r := m / b, m % b;
    assert m == q * b + r;
    assert b * (0 - q) == 0 - q * b;
    assert b * q == q * b;
  }

  function Absolute(x: int): int {
    if x < 0 then 0 - x else x
  }

  /** A division faults exactly when there is no quotient, or it is no word. */
  lemma FaultsExactly(a: Word, b: Word)
    ensures DivFaults(a, b) <==> b == 0 || !(-TWO63 <= TruncDiv(a, b) < TWO63)
  {
    if b != 0 {
      QuotientBound(a, b);
    }
  }

  lemma QuotientBound(a: Word, b: Word)
    requires b != 0
    ensures b == 1 ==> TruncDiv(a, b) == a
    ensures b == -1 ==> TruncDiv(a, b) == 0 - a
    ensures b != 1 && b != -1 ==> -TWO63 < TruncDiv(a, b) < TWO63
  {
    var m: int := if a >= 0 then a else 0 - a;
    var n: int := Absolute(b);
    MagnitudeQuotient(m, b);
    if n >= 2 {
      HalfAtMost(m, n);
    }
  }

  /** Division by a negative number is the opposite of the one by its magnitude. */
  lemma MagnitudeQuotient(m: int, b: int)
    requires b != 0 && m >= 0
    ensures Absolute(b) > 0 && m / b == if b > 0 then m / Absolute(b) else 0 - m / Absolute(b)
  {
    if b < 0 {
      var q := m / (0 - b);
      assert m == q * (0 - b) + m % (0 - b);
      assert q * (0 - b) == (0 - q) * b;
      NegativeDivisor(m, b, 0 - q, m % (0 - b));
    }
  }

  lemma NegativeDivisor(m: int, b: int, q: int, r: int)
    requires b < 0 && m == q * b + r && 0 <= r < 0 - b
    ensures m / b == q
  {
    var d := m / b - q;
    assert m == (m / b) * b + m % b;
    assert d * b == (m / b) * b - q * b;
    assert d * b == (0 - d) * (0 - b);
    MultipleAtLeast(0 - d, 0 - b);
  }

  function BitAt(x: nat, k: nat): nat {
    if k == 0 then x % 2 else BitAt(x / 2, k - 1)
  }

  /** Bit by bit: both bits, either of them, or exactly one. */
  lemma {:induction false} BitwiseAt(op: Bitwise, x: nat, y: nat, k: nat)
    ensures BitAt(BitsOp(op, x, y), k) == 1 <==>
      match op
      case BitAnd => BitAt(x, k) == 1 && BitAt(y, k) == 1
      case BitOr => BitAt(x, k) == 1 || BitAt(y, k) == 1
      case BitXor => BitAt(x, k) != BitAt(y, k)
    decreases k
  {
    BitsHalf(op, x, y);
    if k > 0 {
      BitwiseAt(op, x / 2, y / 2, k - 1);
    } else {
      assert x % 2 < 2 && y % 2 < 2;
    }
  }

  lemma {:induction false} LowBits(x: nat, k: nat)
    ensures Pow2(k) > 0 && BitsOp(BitAnd, x, Pow2(k) - 1) == x % Pow2(k)
    decreases k
  {
    if k == 0 {
      BitsWithZero(x);
    } else {
      LowBits(x / 2, k - 1);
      BitsHalf(BitAnd, x, Pow2(k) - 1);
      assert (Pow2(k) - 1) / 2 == Pow2(k - 1) - 1 && (Pow2(k) - 1) % 2 == 1;
      HalfRemainder(x, Pow2(k - 1));
    }
  }

  lemma HalfRemainder(x: nat, p: int)
    requires p > 0
    ensures x % (2 * p) == 2 * ((x / 2) % p) + x % 2
  {
    var q, r := (x / 2) / p, (x / 2) % p;
    assert x / 2 == q * p + r;
    assert x == q * (2 * p) + (2 * r + x % 2) by {
      assert q * (2 * p) == 2 * (q * p);
    }
    Unique(x, 2 * p, q, 2 * r + x % 2);
  }

  /** A shift looks at the six lowest bits of its count. */
  lemma CountIsLowBits(b: Word)
    ensures ShiftCount(b) == BitsOp(BitAnd, Bits(b), 63)
  {
    hide BitsOp;
    assert Pow2(6) == 64;
    LowBits(Bits(b), 6);
    if b < 0 {
      assert Bits(b) == b + 0x400_0000_0000_0000 * 64;
    }
  }
}
