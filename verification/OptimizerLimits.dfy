/** Rewrites whose side conditions do not hold: when they are wrong, and exactly when they are right. */
module OptimizerLimits {
  import opened Words
  import opened WordAlgebra
  import opened Environment
  import opened Lir
  import opened Lowering
  import opened Runs
  import opened Liveness
  import opened Rewriting
  import opened Optimizing
  import opened OptimizerProof

  // ----- What the arithmetic of a rewrite gives -----

  function Abs(x: int): nat {
    if x < 0 then 0 - x else x
  }

  /** Folding a constant remainder takes the quotient instead. For a positive divisor y the two are
      equal only for multiples of y + 1 below y * (y + 1), for a negative one only for 0. */
  lemma ModFoldRight(x: Word, y: Word)
    requires y != 0
    ensures TruncDiv(x, y) == TruncMod(x, y) <==>
      if y > 0 then Abs(x) % (y + 1) == 0 && Abs(x) / (y + 1) < y else x == 0
  {
    hide TruncMod, TruncDiv;
    TruncBySign(x, y);
    QuotientIsRemainder(Abs(x), Abs(y));
  }

  /** Quotient and remainder of magnitudes: equal, or opposite. */
  lemma QuotientIsRemainder(u: nat, v: int)
    requires v > 0
    ensures u / v == u % v <==> u % (v + 1) == 0 && u / (v + 1) < v
    ensures u / v == 0 - u % v <==> u == 0
  {
    QuotientAsRemainder(u, v);
    if u % (v + 1) == 0 && u / (v + 1) < v {
      MultipleOfNext(u, v);
    }
    Opposite(u, v);
  }

  lemma MultipleOfNext(u: nat, v: int)
    requires v > 0 && u % (v + 1) == 0 && u / (v + 1) < v
    ensures u / v == u % v
  {
    QuotientNotNegative(u, v + 1);
    var p := u / (v + 1);
    assert u == p * (v + 1) == p * v + p;
    Unique(u, v, p, p);
  }

  lemma Opposite(u: nat, v: int)
    requires v > 0
    ensures u / v == 0 - u % v <==> u == 0
  {
    QuotientNotNegative(u, v);
    var q, r := u / v, u % v;
    assert u == q * v + r;
    if u == 0 {
      Unique(0, v, 0, 0);
    }
    if q == 0 - r {
      assert q == 0;
    }
  }

  /** Quotient and remainder by the signs of the operands. */
  lemma TruncBySign(x: Word, y: Word)
    requires y != 0
    ensures var u, v := Abs(x), Abs(y);
      && v > 0
      && TruncDiv(x, y) == (if (x < 0) == (y < 0) then u / v else 0 - u / v)
      && TruncMod(x, y) == (if x < 0 then 0 - u % v else u % v)
  {
    var u: int, v: int := Abs(x), Abs(y);
    DivideByNegative(u, v);
    var q: int := u / v;
    assert u == q * v + u % v;
    var d: int := TruncDiv(x, y);
    assert d == if (x < 0) == (y < 0) then q else 0 - q;
    SignedProduct(x, y, v, q);
  }

  lemma QuotientNotNegative(u: nat, v: int)
    requires v > 0
    ensures u / v >= 0
  {
    var q := u / v;
    assert u == q * v + u % v;
    MultipleAtLeast(q, v);
  }

  lemma SignedProduct(x: int, y: int, v: int, q: int)
    requires v == if y < 0 then 0 - y else y
    ensures y * (if (x < 0) == (y < 0) then q else 0 - q) == if x < 0 then 0 - q * v else q * v
  {
  }

  lemma DivideByNegative(u: nat, v: int)
    requires v > 0
    ensures u / (0 - v) == 0 - u / v
  {
    var q := u / v;
    assert u == q * v + u % v;
    assert q * v == (0 - q) * (0 - v);
    UniqueBy(u, 0 - v, 0 - q, u % v);
  }

  lemma UniqueBy(a: int, n: int, q: int, r: int)
    requires n != 0 && a == q * n + r && 0 <= r < (if n < 0 then 0 - n else n)
    ensures a / n == q
  {
    var d := a / n - q;
    assert a == (a / n) * n + a % n;
    assert d * n == (a / n) * n - q * n;
    if n > 0 {
      MultipleAtLeast(d, n);
    } else {
      assert d * n == (0 - d) * (0 - n);
      MultipleAtLeast(0 - d, 0 - n);
    }
  }

  lemma QuotientAsRemainder(x: nat, y: int)
    requires y > 0
    ensures x / y == x % y ==> x % (y + 1) == 0 && x / (y + 1) == x / y && x / y < y
  {
    var q, r := x / y, x % y;
    assert x == q * y + r;
    if q == r {
      assert x == q * (y + 1) + 0;
      Unique(x, y + 1, q, 0);
    }
  }

  /** Folding two subtractions subtracts the difference of the constants: right only when the second
      constant is 0. */
  lemma SubFoldRight(a: Word, x: Word, y: Word)
    requires Small(x) && Small(y)
    ensures Wrap(Wrap(a - x) - y) == Wrap(a - (x - y)) <==> y == 0
  {
    hide Wrap;
    WrapTurns(a - x);
    WrapAgain(Wrap(a - x) - y, a - x - y, -Turns(a - x));
    WrapApart(a - x, y);
  }

  lemma WrapApart(x: int, y: int)
    requires Small(y)
    ensures Wrap(x - y) == Wrap(x + y) <==> y == 0
  {
    WrapTurns(x - y);
    WrapTurns(x + y);
    hide Wrap;
    var d := Turns(x + y) - Turns(x - y);
    assert 2 * y == Wrap(x + y) - Wrap(x - y) + d * TWO64;
  }

  /** What a folded pair of operations computes. */
  predicate SamePair(first: Opcode, second: Opcode, a: Word, x: Word, y: Word)
    requires Related(first, second) && FitsDouble(first, x, y)
  {
    Alu(second, Alu(first, a, x).value, y) == Alu(first, a, Precise(first, x, y).value)
  }

  /** Two operations with constants become the first with the constants combined by it. For two of
      addition, subtraction and multiplication, two bitwise operations or two shifts, in any order, this is
      right for every operand exactly when: */
  lemma PairFoldRight(first: Opcode, second: Opcode, x: Word, y: Word)
    requires Related(first, second) && FitsDouble(first, x, y)
    ensures (forall a: Word :: SamePair(first, second, a, x, y)) <==>
      match first
      case MUL => second.MUL? || (x == 0 && y == 0)
      case AND => second.AND? || (x == 0 && y == 0)
      case OR => second.OR? || (if second.AND? then x == -1 && y == -1 else y == 0)
      case XOR => second.XOR? || (second.OR? && y == 0)
      case SHL => if second.SHL? then ShiftCount(x) + y == ShiftCount(Precise(SHL, x, y).value) else y == 0
      case SHR =>
        if second.SHR? then Least(ShiftCount(x) + y, WORD_BITS - 1) == ShiftCount(Precise(SHR, x, y).value)
        else y == 0
      case _ => second.ADD? || (second.SUB? && y == 0)
  {
    hide SamePair, Wrap, BitwiseWord;
    if Combines(first, second, x, y) {
      forall a: Word
        ensures SamePair(first, second, a, x, y)
      {
        PairFolds(first, second, a, x, y);
      }
    } else if IsLinear(first) {
      PairDiffers(first, second, x, y);
    } else if IsBitwise(first) {
      BitwiseDiffers(first, second, x, y);
    } else if first == second {
      ShiftsDiffer(first, x, y);
    } else {
      OppositeShiftsDiffer(first, second, x, y);
    }
  }

  lemma PairFolds(first: Opcode, second: Opcode, a: Word, x: Word, y: Word)
    requires Related(first, second) && FitsDouble(first, x, y) && Combines(first, second, x, y)
    ensures SamePair(first, second, a, x, y)
  {
    hide Wrap, Alu, Precise, Combines;
    if IsLinear(first) {
      LinearCombines(first, second, a, x, y);
    } else if IsBitwise(first) {
      BitwisePair(first, second, a, x, y);
    } else {
      ShiftPair(first, second, a, x, y);
    }
  }

  /** An operand for which the fold is wrong: one that cancels the first constant, or one more. */
  lemma PairDiffers(first: Opcode, second: Opcode, x: Word, y: Word)
    requires IsLinear(first) && IsLinear(second) && FitsDouble(first, x, y) && !Combines(first, second, x, y)
    ensures exists a: Word :: !SamePair(first, second, a, x, y)
  {
    hide SamePair;
    var zero: Word := if first.ADD? then 0 - x else if first.SUB? then x else 0;
    if y != 0 {
      DiffersAtZero(first, second, zero, x, y);
    } else {
      DiffersAtOne(first, second, zero + 1, x);
    }
  }

  lemma DiffersAtZero(first: Opcode, second: Opcode, a: Word, x: Word, y: Word)
    requires IsLinear(first) && IsLinear(second) && FitsDouble(first, x, y) && !Combines(first, second, x, y) && y != 0
    requires a == if first.ADD? then 0 - x else if first.SUB? then x else 0
    ensures !SamePair(first, second, a, x, y)
  {
    SmallWraps(y);
    SmallWraps(0 - y);
    var r := Alu(first, a, x).value;
    assert r == 0;
    if first.MUL? {
      assert Alu(first, a, Precise(first, x, y).value).value == 0;
    }
  }

  lemma DiffersAtOne(first: Opcode, second: Opcode, a: Word, x: Word)
    requires IsLinear(first) && IsLinear(second) && FitsDouble(first, x, 0) && !Combines(first, second, x, 0)
    requires a == if first.ADD? then 1 - x else if first.SUB? then x + 1 else 1
    ensures !SamePair(first, second, a, x, 0)
  {
    SmallWraps(x);
  }

  /** Bitwise operations show it at 0, at -1, at the first constant, or at what clears the fold. */
  lemma BitwiseDiffers(first: Opcode, second: Opcode, x: Word, y: Word)
    requires IsBitwise(first) && IsBitwise(second) && FitsDouble(first, x, y) && !Combines(first, second, x, y)
    ensures exists a: Word :: !SamePair(first, second, a, x, y)
  {
    hide BitwiseWord;
    var z := Precise(first, x, y).value;
    BitwiseUnits(x);
    BitwiseUnits(y);
    BitwiseUnits(z);
    if first.XOR? {
      XorDiffers(second, x, y, z);
    } else {
      BitwiseUnits(-1);
      BitwiseAssociates(BitXor, -1, -1, y);
      assert !SamePair(first, second, 0, x, y) || !SamePair(first, second, -1, x, y);
    }
  }

  lemma XorDiffers(second: Opcode, x: Word, y: Word, z: Word)
    requires (second.AND? || (second.OR? && y != 0)) && FitsDouble(XOR, x, y) && z == Precise(XOR, x, y).value
    ensures exists a: Word :: !SamePair(XOR, second, a, x, y)
  {
    hide BitwiseWord;
    var a := if second.OR? then z else if y != 0 then x else BitwiseWord(BitXor, x, 1);
    BitwiseUnits(x);
    BitwiseUnits(y);
    BitwiseUnits(z);
    BitwiseUnits(1);
    BitwiseUnits(BitwiseWord(BitXor, a, x));
    BitwiseAssociates(BitXor, x, x, y);
    BitwiseAssociates(BitXor, x, x, 1);
    BitwiseCommutes(BitXor, x, z);
    BitwiseCommutes(BitXor, x, a);
    assert !SamePair(XOR, second, a, x, y);
  }

  lemma ShiftsDiffer(op: Opcode, x: Word, y: Word)
    requires IsShift(op) && FitsDouble(op, x, y) && !Combines(op, op, x, y)
    ensures exists a: Word :: !SamePair(op, op, a, x, y)
  {
    hide SamePair;
    if op.SHL? {
      LeftDiffers(x, y);
    } else {
      RightDiffers(x, y);
    }
  }

  /** 1 shifted to the left by different counts. */
  lemma LeftDiffers(x: Word, y: Word)
    requires FitsDouble(SHL, x, y) && !Combines(SHL, SHL, x, y)
    ensures !SamePair(SHL, SHL, 1, x, y)
  {
    hide Wrap, Pow2, SamePair, Alu;
    LeftPair(1, x, y);
    LeftTwice(1, ShiftCount(x), y);
    PowersDiffer(ShiftCount(x) + y, ShiftCount(Precise(SHL, x, y).value));
  }

  /** Shifts to the left, written out. */
  lemma LeftPair(a: Word, x: Word, y: Word)
    requires FitsDouble(SHL, x, y)
    ensures 0 <= y < WORD_BITS
    ensures SamePair(SHL, SHL, a, x, y)
      <==> Wrap(Wrap(a * Pow2(ShiftCount(x))) * Pow2(y)) == Wrap(a * Pow2(ShiftCount(Precise(SHL, x, y).value)))
  {
    hide Wrap, Pow2;
    assert ShiftCount(y) == y;
  }

  lemma PowersDiffer(k: nat, r: nat)
    requires k != r && r < WORD_BITS
    ensures Wrap(1 * Pow2(k)) != Wrap(1 * Pow2(r))
  {
    hide Wrap, Pow2;
    WordBound();
    Pow2Less(r, WORD_BITS);
    Pow2Positive(r);
    WordBits(Pow2(r));
    if k >= WORD_BITS {
      FarLeft(k);
    } else {
      Pow2Less(k, WORD_BITS);
      WordBits(Pow2(k));
      Pow2Less(if k < r then k else r, if k < r then r else k);
    }
  }

  /** Shifts to the right, written out. */
  lemma RightPair(a: Word, x: Word, y: Word)
    requires FitsDouble(SHR, x, y)
    ensures 0 <= y < WORD_BITS
    ensures SamePair(SHR, SHR, a, x, y)
      <==> ShiftRight(ShiftRight(a, ShiftCount(x)), y) == ShiftRight(a, ShiftCount(Precise(SHR, x, y).value))
  {
    hide ShiftRight;
    var r := Precise(SHR, x, y).value;
    CountOnly(a, x);
    CountOnly(a, r);
  }

  lemma CountOnly(a: Word, x: Word)
    ensures ShiftRight(a, x) == ShiftRight(a, ShiftCount(x))
  {
    hide Wrap, Pow2;
  }

  lemma RightByCount(a: Word, k: nat)
    requires k < WORD_BITS
    ensures Pow2(k) > 0 && ShiftRight(a, k) == Wrap(a / Pow2(k))
  {
    hide Wrap, Pow2;
    Pow2Positive(k);
  }

  /** A power of two that one of the counts shifts out. */
  lemma RightDiffers(x: Word, y: Word)
    requires FitsDouble(SHR, x, y) && !Combines(SHR, SHR, x, y)
    ensures exists a: Word :: !SamePair(SHR, SHR, a, x, y)
  {
    hide Wrap, Pow2, SamePair, Alu, ShiftRight;
    var k, r := Least(ShiftCount(x) + y, WORD_BITS - 1), ShiftCount(Precise(SHR, x, y).value);
    ShiftedOut(k, r);
    var a: Word := Pow2(Least(k, r));
    RightPair(a, x, y);
    RightByCount(a, ShiftCount(x));
    RightByCount(ShiftRight(a, ShiftCount(x)), y);
    RightByCount(a, r);
    RightThenRight(a, ShiftCount(x), y);
  }

  lemma ShiftedOut(k: nat, r: nat)
    requires k != r && k < WORD_BITS && r < WORD_BITS
    ensures Pow2(Least(k, r)) < TWO63 && Pow2(k) > 0 && Pow2(r) > 0
    ensures Wrap(Pow2(Least(k, r)) / Pow2(k)) != Wrap(Pow2(Least(k, r)) / Pow2(r))
  {
    hide Wrap, Pow2;
    var low, high := Least(k, r), k + r - Least(k, r);
    Pow2Half();
    Pow2Less(low, WORD_BITS - 1);
    Pow2Less(low, high);
    Pow2Positive(low);
    Unique(Pow2(low), Pow2(low), 1, 0);
    Unique(Pow2(low), Pow2(high), 0, Pow2(low));
    WrapOfWord(0);
    WrapOfWord(1);
  }

  /** A shift back does not undo a shift that loses digits, nor give what one shift gives. */
  lemma OppositeShiftsDiffer(first: Opcode, second: Opcode, x: Word, y: Word)
    requires IsShift(first) && IsShift(second) && first != second && FitsDouble(first, x, y) && y != 0
    ensures exists a: Word :: !SamePair(first, second, a, x, y)
  {
    hide SamePair;
    if first.SHL? {
      LeftRightDiffers(x, y);
    } else {
      RightLeftDiffers(x, y);
    }
  }

  lemma RightLeftDiffers(x: Word, y: Word)
    requires FitsDouble(SHR, x, y) && y != 0
    ensures !SamePair(SHR, SHL, -1, x, y)
  {
    hide ShiftRight, ShiftLeft;
    MinusOneRight(x);
    MinusOneRight(Precise(SHR, x, y).value);
    MinusOneLeft(y);
  }

  lemma MinusOneRight(x: Word)
    ensures ShiftRight(-1, x) == -1
  {
    hide Wrap, Pow2;
    var k := ShiftCount(x);
    Pow2Positive(k);
    Unique(-1, Pow2(k), -1, Pow2(k) - 1);
    WrapOfWord(-1);
  }

  lemma MinusOneLeft(y: Word)
    requires 0 < y < WORD_BITS
    ensures ShiftLeft(-1, y) != -1
  {
    hide Wrap, Pow2;
    Pow2Half();
    AtLeastTwo(y);
    if y < WORD_BITS - 1 {
      Pow2Less(y, WORD_BITS - 1);
    }
    WrapOfWord(0 - Pow2(y));
    assert -1 * Pow2(y) == 0 - Pow2(y);
  }

  lemma NoneShifted(x: Word, y: Word)
    requires ShiftCount(x) == 0 && FitsDouble(SHL, x, y) && y != 0
    ensures ShiftRight(ShiftLeft(1, x), y) == 0 && ShiftLeft(1, Precise(SHL, x, y).value) == 1
  {
    hide Wrap, Pow2;
    assert Pow2(0) == 1 by { NoPower(); }
    WrapOfWord(0);
    WrapOfWord(1);
    AtLeastTwo(y);
    Unique(1, Pow2(y), 0, 1);
    MultipleStays(x, Pow2(y));
  }

  lemma NoPower()
    ensures Pow2(0) == 1
  {
  }

  lemma MultipleStays(x: int, k: int)
    requires x % WORD_BITS == 0
    ensures (x * k) % WORD_BITS == 0
  {
    var q := x / WORD_BITS;
    assert x * k == (q * k) * WORD_BITS + 0;
    Unique(x * k, WORD_BITS, q * k, 0);
  }

  /** A power of two shifted to the sign and back is negative, but not the least word. */
  lemma SignReached(p: nat, q: nat)
    requires p < WORD_BITS && 0 < q < WORD_BITS
    ensures Pow2(q) > 0 && -TWO63 < Wrap(Pow2(WORD_BITS - 1 - p) * Pow2(p)) / Pow2(q) < 0
  {
    hide Pow2;
    Pow2Half();
    Pow2Sum(WORD_BITS - 1 - p, p);
    Pow2Sum(WORD_BITS - 1 - q, q);
    Pow2Positive(q);
    Pow2Positive(WORD_BITS - 1 - q);
    Pow2Less(WORD_BITS - 1 - q, WORD_BITS - 1);
    var k := Pow2(WORD_BITS - 1 - q);
    assert -TWO63 == (0 - k) * Pow2(q) + 0;
    Unique(-TWO63, Pow2(q), 0 - k, 0);
  }

  /** A power of two shifted to the left is 0, a power of two or the least word. */
  lemma PowerLeft(e: nat, r: nat)
    ensures var v := Wrap(Pow2(e) * Pow2(r)); v >= 0 || v == -TWO63
  {
    hide Pow2;
    Pow2Half();
    Pow2Sum(e, r);
    if e + r >= WORD_BITS {
      FarLeft(e + r);
    } else if e + r < WORD_BITS - 1 {
      Pow2Less(e + r, WORD_BITS - 1);
    }
  }

  /** The power of two that becomes the sign is not shifted back to where one shift takes it. */
  lemma SignDiffers(p: nat, q: nat, r: nat)
    requires 0 < p < WORD_BITS && 0 < q < WORD_BITS
    ensures Pow2(q) > 0 && Pow2(WORD_BITS - 1 - p) < TWO63
    ensures Wrap(Wrap(Pow2(WORD_BITS - 1 - p) * Pow2(p)) / Pow2(q)) != Wrap(Pow2(WORD_BITS - 1 - p) * Pow2(r))
  {
    hide Wrap, Pow2;
    var a := Pow2(WORD_BITS - 1 - p);
    Pow2Half();
    Pow2Less(WORD_BITS - 1 - p, WORD_BITS - 1);
    SignReached(p, q);
    QuotientIsWord(Wrap(a * Pow2(p)), q);
    WrapOfWord(Wrap(a * Pow2(p)) / Pow2(q));
    PowerLeft(WORD_BITS - 1 - p, r);
  }

  lemma LeftRightDiffers(x: Word, y: Word)
    requires FitsDouble(SHL, x, y) && y != 0
    ensures exists a: Word :: !SamePair(SHL, SHR, a, x, y)
  {
    hide Wrap, Pow2;
    var p, r := ShiftCount(x), ShiftCount(Precise(SHL, x, y).value);
    if p == 0 {
      NoneShifted(x, y);
      assert !SamePair(SHL, SHR, 1, x, y);
    } else {
      SignDiffers(p, y, r);
      assert !SamePair(SHL, SHR, Pow2(WORD_BITS - 1 - p), x, y);
    }
  }

  // ----- Programs whose behaviour changes -----

  /** Two programs that end differently from one start do not behave the same. */
  lemma EndDifferently(P: seq<Instr>, Q: seq<Instr>, w: World, m: Machine, a: nat, b: nat)
    requires Start(m)
    requires var p, q := Run(P, w, m, a), Run(Q, w, m, b);
      !p.status.Running? && !q.status.Running? && p.status != q.status
    ensures !SameBehaviour(P, Q)
  {
    hide Run, Step;
    if SameBehaviour(P, Q) {
      assert CoveredFrom(P, Q, w, m, m, a);
      var n: nat :| CoveredAt(P, Q, w, m, m, a, n);
      HaltedAgree(Q, w, m, n, b);
      assert false;
    }
  }

  /** A machine at the start with a value in the first temporary. */
  function StartWith(v: Word): Machine {
    Machine(0, v, seq(MAX_REGISTER_ARGUMENTS, i => 0), [], map[], (0, 0), [], Running)
  }

  function SomeWorld(): World {
    World(trace => 0, (trace, i) => 0, (pc, product, was) => was, uid => 5, [])
  }

  /** A returned register ends the run with its value. */
  lemma RunReturn(prog: seq<Instr>, w: World, m: Machine, o: Operand, v: Word)
    requires m.status.Running? && m.pc < |prog| && prog[m.pc] == Instr(RETURN, Nothing, o) && !o.Nothing?
    requires Read(w, m, o) == Some(v)
    ensures Run(prog, w, m, 1) == m.(status := Returned(Some(v)))
  {
    hide Read;
    OneStepMore(prog, w, m, 1);
  }

  /** One instruction, then a return. */
  lemma RunThenReturn(prog: seq<Instr>, w: World, m: Machine, o: Operand, v: Word)
    requires m.status.Running? && m.pc + 1 < |prog| && !IsControl(prog[m.pc].op)
    requires prog[m.pc + 1] == Instr(RETURN, Nothing, o) && !o.Nothing?
    requires Effect(w, m, prog[m.pc]).status.Running?
    requires Read(w, Effect(w, m, prog[m.pc]), o) == Some(v)
    ensures Run(prog, w, m, 2).status == Returned(Some(v))
  {
    hide Read, Effect;
    var e := Effect(w, m, prog[m.pc]);
    StepMoves(prog, w, m);
    OneStepMore(prog, w, m, 2);
    ReadAnywhere(w, e, m.pc + 1, o);
    RunReturn(prog, w, e.(pc := m.pc + 1), o, v);
  }

  lemma RunTwoThenReturn(prog: seq<Instr>, w: World, m: Machine, o: Operand, v: Word)
    requires m.status.Running? && m.pc + 2 < |prog| && !IsControl(prog[m.pc].op) && !IsControl(prog[m.pc + 1].op)
    requires prog[m.pc + 2] == Instr(RETURN, Nothing, o) && !o.Nothing?
    requires var e := Effect(w, m, prog[m.pc]);
      && e.status.Running?
      && var f := Effect(w, e.(pc := m.pc + 1), prog[m.pc + 1]);
      f.status.Running? && Read(w, f, o) == Some(v)
    ensures Run(prog, w, m, 3).status == Returned(Some(v))
  {
    hide Read, Effect;
    StepMoves(prog, w, m);
    OneStepMore(prog, w, m, 3);
    RunThenReturn(prog, w, Step(prog, w, m), o, v);
  }

  /** An operation with a constant on the first temporary. */
  lemma OperationGives(w: World, m: Machine, op: Opcode, c: Word, r: Word)
    requires IsMath(op) && Alu(op, m.t1, c) == Some(r) && m.Valid() && m.status.Running?
    ensures var e := Effect(w, m, Instr(op, T1, Imm(c)));
      e.Valid() && e.status.Running? && e.t1 == r && Read(w, e, T1) == Some(r)
  {
    hide Alu;
    assert Read(w, m, T1) == Some(m.t1) && Read(w, m, Imm(c)) == Some(c);
  }

  /** Two operations with constants, then a return. */
  lemma RunOperations(prog: seq<Instr>, v: Word, r: Word, r': Word)
    requires |prog| == 4 && IsMath(prog[0].op) && IsMath(prog[1].op) && prog[0].src.Imm? && prog[1].src.Imm?
    requires prog[0].dst == prog[1].dst == T1 && prog[2] == Instr(RETURN, Nothing, T1)
    requires Alu(prog[0].op, v, prog[0].src.n) == Some(r) && Alu(prog[1].op, r, prog[1].src.n) == Some(r')
    ensures Run(prog, SomeWorld(), StartWith(v), 3).status == Returned(Some(r'))
  {
    hide Alu, Run, Effect, Read;
    var w, m := SomeWorld(), StartWith(v);
    OperationGives(w, m, prog[0].op, prog[0].src.n, r);
    OperationGives(w, Effect(w, m, prog[0]).(pc := 1), prog[1].op, prog[1].src.n, r');
    RunTwoThenReturn(prog, w, m, T1, r');
  }

  /** One operation, or one and what is left of another, then a return. */
  lemma RunOperation(prog: seq<Instr>, v: Word, r: Word)
    requires 2 <= |prog| <= 4 && IsMath(prog[0].op) && prog[0].src.Imm? && prog[0].dst == T1
    requires Alu(prog[0].op, v, prog[0].src.n) == Some(r)
    requires if prog[1].op.NOP? then |prog| > 2 && prog[2] == Instr(RETURN, Nothing, T1)
             else prog[1] == Instr(RETURN, Nothing, T1)
    ensures Run(prog, SomeWorld(), StartWith(v), if prog[1].op.NOP? then 3 else 2).status == Returned(Some(r))
  {
    hide Alu, Run, Read;
    var w, m := SomeWorld(), StartWith(v);
    OperationGives(w, m, prog[0].op, prog[0].src.n, r);
    var e := Effect(w, m, prog[0]);
    if prog[1].op.NOP? {
      ReadAnywhere(w, e, 1, T1);
      RunTwoThenReturn(prog, w, m, T1, r);
    } else {
      RunThenReturn(prog, w, m, T1, r);
    }
  }

  lemma ModFolded(g: Guards)
    ensures
      ConstantFolding(g, [Load(T1, Imm(7)), Instr(MOD, T1, Imm(2)), Instr(RETURN, Nothing, T1), END], 0).prog
        == [Load(T1, Imm(3)), Instr(NOP, T1, Imm(2)), Instr(RETURN, Nothing, T1), END]
  {
    hide CanDrop, CombinesExactly, FoldsExactly;
  }

  /** 7 % 2 with both numbers constant becomes 3. */
  lemma ModFoldIsWrong(g: Guards)
    ensures var P := [Load(T1, Imm(7)), Instr(MOD, T1, Imm(2)), Instr(RETURN, Nothing, T1), END];
      !SameBehaviour(P, ConstantFolding(g, P, 0).prog)
  {
    hide SameBehaviour, Run, Step, ConstantFolding;
    var P := [Load(T1, Imm(7)), Instr(MOD, T1, Imm(2)), Instr(RETURN, Nothing, T1), END];
    var Q := [Load(T1, Imm(3)), Instr(NOP, T1, Imm(2)), Instr(RETURN, Nothing, T1), END];
    ModFolded(g);
    RunTwoThenReturn(P, SomeWorld(), StartWith(0), T1, 1);
    RunTwoThenReturn(Q, SomeWorld(), StartWith(0), T1, 3);
    EndDifferently(P, Q, SomeWorld(), StartWith(0), 3, 3);
  }

  lemma UnlikeFolded(g: Guards)
    ensures
      ConstantFolding(g, [Instr(ADD, T1, Imm(3)), Instr(MUL, T1, Imm(2)), Instr(RETURN, Nothing, T1), END], 0).prog
        == [Instr(ADD, T1, Imm(5)), Instr(NOP, T1, Imm(2)), Instr(RETURN, Nothing, T1), END]
  {
    hide CanDrop, CombinesExactly, FoldsExactly;
  }

  /** (x + 3) * 2 becomes x + 5: the second operator is dropped. */
  lemma UnlikeFoldIsWrong(g: Guards)
    ensures var P := [Instr(ADD, T1, Imm(3)), Instr(MUL, T1, Imm(2)), Instr(RETURN, Nothing, T1), END];
      !SameBehaviour(P, ConstantFolding(g, P, 0).prog)
  {
    hide SameBehaviour, Run, Step, ConstantFolding;
    var P := [Instr(ADD, T1, Imm(3)), Instr(MUL, T1, Imm(2)), Instr(RETURN, Nothing, T1), END];
    var Q := [Instr(ADD, T1, Imm(5)), Instr(NOP, T1, Imm(2)), Instr(RETURN, Nothing, T1), END];
    UnlikeFolded(g);
    RunOperations(P, 0, 3, 6);
    RunOperation(Q, 0, 5);
    EndDifferently(P, Q, SomeWorld(), StartWith(0), 3, 3);
  }

  lemma ProductFolded(g: Guards)
    ensures var P := [Instr(MUL, T1, Imm(2)), Instr(MUL, T1, Imm(3)), Instr(RETURN, Nothing, T1), END];
      ConstantFolding(g, MathOperations(g, P, 0).prog, 0).prog
        == [Instr(SHL, T1, Imm(8)), Instr(NOP, T1, Imm(3)), Instr(RETURN, Nothing, T1), END]
  {
    hide CanDrop, CombinesExactly, FoldsExactly;
    ShiftForTwo();
    assert Pow2(3) == 8;
    var P := [Instr(MUL, T1, Imm(2)), Instr(MUL, T1, Imm(3)), Instr(RETURN, Nothing, T1), END];
    assert MathOperations(g, P, 0).prog
        == [Instr(SHL, T1, Imm(1)), Instr(MUL, T1, Imm(3)), Instr(RETURN, Nothing, T1), END];
    assert Fold(g, SHL, 1, 3) == 8;
  }

  /** x * 2 * 3 becomes x << 8: the first multiplication becomes a shift by 1, and the 3 is folded into
      its count. */
  lemma ProductFoldIsWrong(g: Guards)
    ensures var P := [Instr(MUL, T1, Imm(2)), Instr(MUL, T1, Imm(3)), Instr(RETURN, Nothing, T1), END];
      !SameBehaviour(P, ConstantFolding(g, MathOperations(g, P, 0).prog, 0).prog)
  {
    hide SameBehaviour, Run, Step, ConstantFolding, MathOperations;
    var P := [Instr(MUL, T1, Imm(2)), Instr(MUL, T1, Imm(3)), Instr(RETURN, Nothing, T1), END];
    var Q := [Instr(SHL, T1, Imm(8)), Instr(NOP, T1, Imm(3)), Instr(RETURN, Nothing, T1), END];
    ProductFolded(g);
    assert Pow2(8) == 256;
    RunOperations(P, 1, 2, 6);
    RunOperation(Q, 1, 256);
    EndDifferently(P, Q, SomeWorld(), StartWith(1), 3, 3);
  }

  lemma ShiftForTwo()
    ensures IsPowerOfTwo(Bits(2)) && ShiftFor(2) == 1 && !IsPowerOfTwo(Bits(3))
  {
    assert Log2(2) == 1 + Log2(1);
    assert Pow2(1) == 2;
  }

  /** -7 / 4 is -1, but shifting -7 right by 2 gives -2. */
  lemma DivShiftIsWrong(g: Guards)
    ensures var P := [Instr(DIV, T1, Imm(4)), Instr(RETURN, Nothing, T1), END];
      !SameBehaviour(P, MathOperations(g, P, 0).prog)
  {
    hide SameBehaviour, Run, Step;
    var P := [Instr(DIV, T1, Imm(4)), Instr(RETURN, Nothing, T1), END];
    var Q := MathOperations(g, P, 0).prog;
    ShiftForFour();
    assert Q == [Instr(SHR, T1, Imm(2)), Instr(RETURN, Nothing, T1), END];
    RunOperation(P, -7, -1);
    RunOperation(Q, -7, -2);
    EndDifferently(P, Q, SomeWorld(), StartWith(-7), 2, 2);
  }

  lemma ShiftForFour()
    ensures IsPowerOfTwo(Bits(4)) && ShiftFor(4) == 2 && Pow2(2) == 4
  {
    assert Log2(4) == 1 + Log2(2) == 2 + Log2(1);
  }

  // ----- The zero of a `for` without an initial value -----

  /** The two instructions that give a variable its zero, next to each other. */
  predicate ZeroWindow(prog: seq<Instr>, t: nat, n: nat, x: nat) {
    && t < n < |prog| && Blank(prog, t, n)
    && prog[t] == Load(T1, Nothing) && prog[n] == Store(Local(x), T1)
  }

  lemma ZeroStored(prog: seq<Instr>, w: World, m: Machine, t: nat, n: nat, x: nat)
    requires ZeroWindow(prog, t, n, x) && m.status.Running? && m.pc == t
    ensures Run(prog, w, m, n + 1 - t) == m.(pc := n + 1, t1 := 0, locals := m.locals[x := 0])
  {
    hide Step, Run;
    RunPair(prog, w, m, t, n);
    ThenMoves(prog, w, m.(t1 := 0), n);
  }

  lemma ZeroForwarded(prog: seq<Instr>, w: World, m: Machine, t: nat, n: nat, x: nat)
    requires ZeroWindow(prog, t, n, x) && m.status.Running? && m.pc == t
    ensures Run(Forward(prog, t, n).prog, w, m, n + 1 - t) == m.(pc := n + 1)
  {
    hide Step, Run, CanForward;
    var after := Forward(prog, t, n).prog;
    assert after[t] == Omit(prog[t]) && after[n] == Store(Local(x), Nothing);
    RunPair(after, w, m, t, n);
    ThenMoves(after, w, m, n);
  }

  /** The rule that carries a loaded operand into the store of a variable makes it a store of the empty
      operand, which only makes room for the variable: its zero is gone. In any program and any state
      the variables are what they would have been if and only if the variable reads 0 already. */
  lemma EmptyStoreRight(prog: seq<Instr>, w: World, m: Machine, t: nat, n: nat, x: nat)
    requires ZeroWindow(prog, t, n, x) && m.status.Running? && m.pc == t
    ensures var p, q := Run(prog, w, m, n + 1 - t), Run(Forward(prog, t, n).prog, w, m, n + 1 - t);
      && p.status.Running? && q.status.Running? && p.pc == q.pc == n + 1
      && p.slots == q.slots && p.stack == q.stack && p.trace == q.trace
      && ((forall uid: nat :: Read(w, p, Local(uid)) == Read(w, q, Local(uid))) <==> Read(w, m, Local(x)) == Some(0))
  {
    hide Run;
    ZeroStored(prog, w, m, t, n, x);
    ZeroForwarded(prog, w, m, t, n, x);
    var p, q := Run(prog, w, m, n + 1 - t), Run(Forward(prog, t, n).prog, w, m, n + 1 - t);
    assert Read(w, p, Local(x)) == Some(0) && Read(w, q, Local(x)) == Read(w, m, Local(x));
  }

  /** A program that returns something else after the rule. */
  lemma EmptyStoreIsWrong(g: Guards)
    requires g.loadedAlike(Nothing, Local(0))
    ensures var P := [Load(T1, Nothing), Store(Local(0), T1), Instr(RETURN, Nothing, Local(0)), END];
      !SameBehaviour(P, LoadsAndStores(g, P, 0).prog)
  {
    hide SameBehaviour, Run, Step, CanForward;
    var P := [Load(T1, Nothing), Store(Local(0), T1), Instr(RETURN, Nothing, Local(0)), END];
    var Q := LoadsAndStores(g, P, 0).prog;
    assert Q == [Instr(NOP, T1, Nothing), Store(Local(0), Nothing), Instr(RETURN, Nothing, Local(0)), END];
    RunTwoThenReturn(P, SomeWorld(), StartWith(0), Local(0), 0);
    RunTwoThenReturn(Q, SomeWorld(), StartWith(0), Local(0), 5);
    EndDifferently(P, Q, SomeWorld(), StartWith(0), 3, 3);
  }
}
