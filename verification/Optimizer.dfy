/** The peephole optimizer: three passes over the instruction array, each trying four groups of
    rules at every index. Rules overwrite instructions in place with NOPs and see through NOPs. */
module Optimizing {
  import opened Words
  import opened Lir
  import opened Liveness
  import opened WordAlgebra

  const PASS_COUNT: nat := 3

  /** What the rules look at besides the operands of the model: the comparisons of data types, one for
      each rule that makes one (a pop and a move of what was popped, a move into itself, a load and what
      uses it), the registers that operands of other kinds seem to hold (register operands are compared
      without looking at their kind), and constants that do not fit a double. Nothing is known of these. */
  datatype Guards = Guards(
    poppedAlike: (Operand, Operand) -> bool,
    movedAlike: (Operand, Operand) -> bool,
    loadedAlike: (Operand, Operand) -> bool,
    samePayload: (Operand, Operand) -> bool,
    rounded: (Opcode, Word, Word) -> Word)

  /** Every operand of every instruction has a type of its own, so the guards may say something else at
      each pass and index. */
  type Oracle = (nat, nat) -> Guards

  /** A program in the array always ends in EOF. */
  predicate EndsInEOF(prog: seq<Instr>) {
    |prog| > 0 && prog[|prog| - 1].op.EOF?
  }

  /** The program after a rule was tried. `safe` says that the rewrite, if there was one, needs no
      register that it gives another value; `right` says that its arithmetic is that of the machine. */
  datatype Rewritten = Rewritten(prog: seq<Instr>, safe: bool, right: bool) {
    predicate Exact() {
      safe && right
    }
  }

  function Omit(i: Instr): Instr {
    i.(op := NOP)
  }

  predicate RegistersEqual(g: Guards, a: Operand, b: Operand) {
    if a.Register? && b.Register? then a == b else g.samePayload(a, b)
  }

  /** The nearest instruction that is not a NOP, or the last one when there is none. */
  function PeekAt(prog: seq<Instr>, position: int, forward: bool): (p: nat)
    requires EndsInEOF(prog)
    ensures p < |prog| && !prog[p].op.NOP?
    decreases if forward then |prog| - position else position
  {
    if position < 0 || position >= |prog| then |prog| - 1
    else if !prog[position].op.NOP? then position
    else PeekAt(prog, if forward then position + 1 else position - 1, forward)
  }

  function Peek(prog: seq<Instr>, index: nat, offset: nat): (p: nat)
    requires EndsInEOF(prog)
    ensures p < |prog| && !prog[p].op.NOP?
  {
    PeekAt(prog, index + offset, offset > 0)
  }

  // ----- Side conditions -----

  /** A register operand that stands for a register of the machine. */
  predicate Known(o: Operand) {
    o.Register? && CellOf(o).Some?
  }

  /** Reading the operand always gives a value. */
  predicate Readable(o: Operand) {
    o.Nothing? || o.Imm? || o.Local? || CellOf(o).Some?
  }

  /** An operand that can be written and whose value is kept in a register of the machine. */
  predicate Holder(o: Operand) {
    Known(o) || (o.Argument? && o.isCaller && CellOf(o).Some?)
  }

  /** Writing the operand changes a local or a register only. */
  predicate Writable(o: Operand) {
    o.Local? || Holder(o)
  }

  /** The instruction at n reads what `a` loaded into a register, and the register is not needed
      for anything else: the instruction may take the value from where `a` took it. A multiplication
      by a constant no longer leaves anything where remainders go. */
  ghost predicate CanForward(prog: seq<Instr>, n: nat, a: Instr)
    requires n < |prog|
  {
    var b := prog[n];
    && Known(a.dst) && b.src == a.dst && !a.src.Nothing? && !b.op.NEW_LABEL? && !b.op.CALL?
    && (ReadsSource(b.op) || Readable(a.src))
    && !(ReadsDestination(b.op) && Is(b.dst, CellOf(a.dst).value))
    && DeadPast(prog, n, CellOf(a.dst).value)
    && (b.op.MUL? && a.src.Imm? ==> Dead(prog, n + 1, Slot(REMAINDER_SLOT)))
  }

  /** push x; move d, s; pop p: the move touches neither the popped register nor the stack. */
  predicate CanMoveUp(b: Instr, d: Instr) {
    && Holder(d.dst) && Readable(b.src) && Writable(b.dst)
    && !Is(b.dst, CellOf(d.dst).value) && !Is(b.src, CellOf(d.dst).value)
  }

  /** pop r; move d, r: the register is dead after the move, or is d itself. */
  ghost predicate CanPopInto(prog: seq<Instr>, n: nat, a: Instr)
    requires n < |prog|
  {
    Known(a.dst) && prog[n].src == a.dst && !OnStack(prog[n].dst) && DeadPast(prog, n, CellOf(a.dst).value)
  }

  /** store y, x; pop x; op x, y with a commutative op: y is dead afterwards. */
  ghost predicate CanSwap(prog: seq<Instr>, u: nat, a: Instr)
    requires u < |prog|
  {
    && Known(a.dst) && Known(a.src) && CellOf(a.dst) != CellOf(a.src)
    && prog[u].dst == a.src && prog[u].src == a.dst
    && DeadPast(prog, u, CellOf(a.dst).value)
  }

  /** The instruction can go as far as RDX is concerned: a division that leaves a remainder there
      leaves it for nobody. */
  ghost predicate CanDrop(prog: seq<Instr>, k: nat)
    requires k < |prog|
  {
    prog[k].op.DIV? || prog[k].op.MOD? ==> Dead(prog, k + 1, Slot(REMAINDER_SLOT))
  }

  // ----- The rules -----

  ghost function Forward(prog: seq<Instr>, t: nat, n: nat): Rewritten
    requires t < |prog| && n < |prog|
  {
    Rewritten(prog[t := Omit(prog[t])][n := prog[n].(src := prog[t].src)], CanForward(prog, n, prog[t]), true)
  }

  predicate IsMove(op: Opcode) {
    op.LOAD? || op.STORE?
  }

  ghost function StackOperations(g: Guards, prog: seq<Instr>, index: nat): Rewritten
    requires EndsInEOF(prog)
  {
    var t, n := Peek(prog, index, 0), Peek(prog, index, 1);
    var a, b := prog[t], prog[n];
    if a.op.PUSH? && b.op.POP? then
      if a.src.Register? then
        if RegistersEqual(g, a.src, b.dst) then
          Rewritten(prog[t := Omit(a)][n := Omit(b)], Known(b.dst), true)
        else
          Rewritten(prog[t := Omit(a)][n := Instr(STORE, b.dst, a.src)], !OnStack(b.dst), true)
      else
        Rewritten(prog[t := Omit(a)][n := Instr(LOAD, b.dst, a.src)], true, true)
    else if a.op.LOAD? && a.dst.Register? && b.op.PUSH? && b.src.Register? && RegistersEqual(g, a.dst, b.src)
            && !a.src.Register? then
      Forward(prog, t, n)
    else
      var u := Peek(prog, index, 2);
      var d := prog[u];
      if a.op.PUSH? && IsMove(b.op) && d.op.POP? && !RegistersEqual(g, d.dst, b.dst) then
        Rewritten(prog[u := Omit(d)][t := Instr(LOAD, d.dst, a.src)], CanMoveUp(b, d), true)
      else if a.op.POP? && IsMove(b.op) && a.dst.Register? && b.src.Register? && RegistersEqual(g, a.dst, b.src)
              && g.poppedAlike(a.dst, b.src) then
        Rewritten(prog[t := Omit(a)][n := b.(op := POP)], CanPopInto(prog, n, a), true)
      else
        Rewritten(prog, true, true)
  }

  ghost function LoadsAndStores(g: Guards, prog: seq<Instr>, index: nat): Rewritten
    requires EndsInEOF(prog)
  {
    var t, n := Peek(prog, index, 0), Peek(prog, index, 1);
    var a, b := prog[t], prog[n];
    if IsMove(a.op) && a.dst.Register? && a.src.Register? && a.dst == a.src && g.movedAlike(a.dst, a.src) then
      Rewritten(prog[t := Omit(a)], Known(a.dst), true)
    else if a.op.LOAD? && a.src.Imm? && b.op.STORE? && b.src.Register? && RegistersEqual(g, b.src, a.dst) then
      Forward(prog, t, n)
    else if a.op.LOAD? && a.dst.Register? && a.src.Argument? && b.op.STORE? && b.src.Register?
            && RegistersEqual(g, a.dst, b.src) then
      Forward(prog, t, n)
    else if a.op.LOAD? && a.dst.Register? && b.src.Register? && RegistersEqual(g, a.dst, b.src)
            && g.loadedAlike(a.src, b.dst) then
      Forward(prog, t, n)
    else
      Rewritten(prog, true, true)
  }

  predicate IsPowerOfTwo(x: nat)
  {
    x == 1 || (x > 0 && x % 2 == 0 && IsPowerOfTwo(x / 2))
  }

  function Log2(x: nat): (k: nat)
    requires IsPowerOfTwo(x)
    ensures Pow2(k) == x
  {
    if x == 1 then 0 else 1 + Log2(x / 2)
  }

  /** The test by halving finds exactly the powers of two. */
  lemma PowerOfTwoMeans(x: nat)
    ensures IsPowerOfTwo(x) <==> exists k: nat :: Pow2(k) == x
  {
    hide IsPowerOfTwo, Pow2;
    if IsPowerOfTwo(x) {
      assert Pow2(Log2(x)) == x;
    }
    if k: nat :| Pow2(k) == x {
      PowersPass(k);
    }
  }

  lemma {:induction false} PowersPass(k: nat)
    ensures IsPowerOfTwo(Pow2(k))
    decreases k
  {
    if k > 0 {
      PowersPass(k - 1);
      assert Pow2(k) / 2 == Pow2(k - 1) && Pow2(k - 1) > 0;
    }
  }

  lemma {:induction false} Pow2Grows(k: nat, bound: nat)
    requires Pow2(k) < Pow2(bound)
    ensures k < bound
    decreases k
  {
    if k > 0 && bound > 0 {
      Pow2Grows(k - 1, bound - 1);
    } else if bound == 0 {
      Pow2Positive(k);
    }
  }

  /** The shift that stands for a multiplication or division by the constant. */
  function ShiftFor(n: Word): (k: Word)
    requires IsPowerOfTwo(Bits(n))
    ensures 0 <= k < WORD_BITS && Pow2(k) == Bits(n)
  {
    WordBound();
    Pow2Grows(Log2(Bits(n)), WORD_BITS);
    Log2(Bits(n))
  }

  ghost function MathOperations(g: Guards, prog: seq<Instr>, index: nat): Rewritten
    requires EndsInEOF(prog)
  {
    var t, n := Peek(prog, index, 0), Peek(prog, index, 1);
    var a, b := prog[t], prog[n];
    if (a.op.ADD? || a.op.SUB? || a.op.SHL? || a.op.SHR?) && a.src == Imm(0) then
      Rewritten(prog[t := Omit(a)], Known(a.dst), true)
    else if (a.op.MUL? || a.op.DIV?) && a.src == Imm(1) then
      Rewritten(prog[t := Omit(a)], Known(a.dst) && CanDrop(prog, t), true)
    else if (a.op.MUL? || a.op.DIV?) && a.dst.Register? && a.src.Imm? && IsPowerOfTwo(Bits(a.src.n)) then
      Rewritten(prog[t := Instr(if a.op.MUL? then SHL else SHR, a.dst, Imm(ShiftFor(a.src.n)))], CanDrop(prog, t),
                a.op.MUL?)
    else
      var u := Peek(prog, index, 2);
      var d := prog[u];
      if a.op.STORE? && a.dst.Register? && a.src.Register? && b.op.POP? && b.dst.Register? && a.src == b.dst
         && (d.op.ADD? || d.op.MUL?) && RegistersEqual(g, d.dst, b.dst) && RegistersEqual(g, d.src, a.dst) then
        Rewritten(prog[t := Omit(a)][n := b.(dst := a.dst)], CanSwap(prog, u, a), true)
      else if a.op.STORE? && a.dst.Register? && a.src.Imm? && IsMath(b.op) && b.dst.Register?
              && RegistersEqual(g, b.src, a.dst) then
        Forward(prog, t, n)
      else
        Rewritten(prog, true, true)
  }

  /** Integers that a double holds exactly. */
  predicate Small(x: int) {
    -0x20_0000_0000_0000 <= x <= 0x20_0000_0000_0000
  }

  /** The result of a fold before it becomes a double, where that is an integer computation with a meaning
      or one that doubles do exactly. The quotient for MOD is the code's. */
  function Precise(op: Opcode, x: Word, y: Word): Option<int> {
    match op
    case ADD => Some(x + y)
    case SUB => Some(x - y)
    case MUL => Some(x * y)
    case MOD => if y == 0 then None else Some(TruncDiv(x, y))
    case AND => Some(BitwiseWord(BitAnd, x, y))
    case OR => Some(BitwiseWord(BitOr, x, y))
    case XOR => Some(BitwiseWord(BitXor, x, y))
    case SHL => if 0 <= y < WORD_BITS then Some(x * Pow2(y)) else None
    case SHR =>
      if 0 <= y < WORD_BITS then
        Pow2Positive(y);
        Some(x / Pow2(y))
      else None
    case _ => None
  }

  predicate FitsDouble(op: Opcode, x: Word, y: Word) {
    var r := Precise(op, x, y);
    Small(x) && Small(y) && r.Some? && Small(r.value)
  }

  /** Constants are folded as doubles: exact for small numbers. */
  function Fold(g: Guards, op: Opcode, x: Word, y: Word): Word {
    if FitsDouble(op, x, y) then Precise(op, x, y).value else g.rounded(op, x, y)
  }

  /** The fold of two constants gives what the machine computes. */
  predicate FoldsExactly(op: Opcode, x: Word, y: Word) {
    FitsDouble(op, x, y) && !op.MOD?
  }

  predicate IsLinear(op: Opcode) {
    op.ADD? || op.SUB? || op.MUL?
  }

  predicate IsBitwise(op: Opcode) {
    op.AND? || op.OR? || op.XOR?
  }

  predicate IsShift(op: Opcode) {
    op.SHL? || op.SHR?
  }

  predicate Related(first: Opcode, second: Opcode) {
    || (IsLinear(first) && IsLinear(second))
    || (IsBitwise(first) && IsBitwise(second))
    || (IsShift(first) && IsShift(second))
  }

  /** (a first x) second y is a first (x first y), for every a. */
  predicate Combines(first: Opcode, second: Opcode, x: Word, y: Word)
    requires Related(first, second) && FitsDouble(first, x, y)
  {
    if first.MUL? then second.MUL? || (x == 0 && y == 0)
    else if IsLinear(first) then second.ADD? || (second.SUB? && y == 0)
    else if IsBitwise(first) then first == second || BitwiseCombines(first, second, x, y)
    else if first != second then y == 0
    else if first.SHL? then ShiftCount(x) + y == ShiftCount(Precise(SHL, x, y).value)
    else Least(ShiftCount(x) + y, WORD_BITS - 1) == ShiftCount(Precise(SHR, x, y).value)
  }

  predicate BitwiseCombines(first: Opcode, second: Opcode, x: Word, y: Word) {
    if first.AND? then x == 0 && y == 0
    else if first.OR? then if second.AND? then x == -1 && y == -1 else y == 0
    else second.OR? && y == 0
  }

  function Least(a: int, b: int): int {
    if a < b then a else b
  }

  /** The fold of two operations with constants gives what the machine computes. */
  predicate CombinesExactly(first: Opcode, second: Opcode, x: Word, y: Word) {
    FoldsExactly(first, x, y) && Related(first, second) && Combines(first, second, x, y)
  }

  ghost function ConstantFolding(g: Guards, prog: seq<Instr>, index: nat): Rewritten
    requires EndsInEOF(prog)
  {
    var t, n := Peek(prog, index, 0), Peek(prog, index, 1);
    var a, b := prog[t], prog[n];
    if a.op.LOAD? && IsMath(b.op) && a.src.Imm? && b.src.Imm? && b.dst.Register? && a.dst.Register?
       && a.dst == b.dst then
      Rewritten(prog[n := Omit(b)][t := a.(src := Imm(Fold(g, b.op, a.src.n, b.src.n)))],
                CanDrop(prog, n), FoldsExactly(b.op, a.src.n, b.src.n))
    else if IsMath(a.op) && IsMath(b.op) && a.dst.Register? && b.dst.Register? && a.dst == b.dst
            && a.src.Imm? && b.src.Imm? then
      Rewritten(prog[n := Omit(b)][t := a.(src := Imm(Fold(g, a.op, a.src.n, b.src.n)))],
                CanDrop(prog, n), CombinesExactly(a.op, b.op, a.src.n, b.src.n))
    else
      Rewritten(prog, true, true)
  }

  // ----- Passes -----

  predicate KeepsShape(prog: seq<Instr>, prog': seq<Instr>) {
    |prog'| == |prog| && EndsInEOF(prog')
  }

  lemma StackOperationsKeepShape(g: Guards, prog: seq<Instr>, index: nat)
    requires EndsInEOF(prog)
    ensures KeepsShape(prog, StackOperations(g, prog, index).prog)
  {
    hide RegistersEqual, CanForward, CanMoveUp, CanPopInto, CanSwap, CanDrop, Fold, FoldsExactly, CombinesExactly,
      Known, ShiftFor, IsPowerOfTwo,
      PeekAt;
  }

  lemma LoadsAndStoresKeepShape(g: Guards, prog: seq<Instr>, index: nat)
    requires EndsInEOF(prog)
    ensures KeepsShape(prog, LoadsAndStores(g, prog, index).prog)
  {
    hide RegistersEqual, CanForward, CanMoveUp, CanPopInto, CanSwap, CanDrop, Fold, FoldsExactly, CombinesExactly,
      Known, ShiftFor, IsPowerOfTwo,
      PeekAt;
  }

  lemma MathOperationsKeepShape(g: Guards, prog: seq<Instr>, index: nat)
    requires EndsInEOF(prog)
    ensures KeepsShape(prog, MathOperations(g, prog, index).prog)
  {
    hide RegistersEqual, CanForward, CanMoveUp, CanPopInto, CanSwap, CanDrop, Fold, FoldsExactly, CombinesExactly,
      Known, ShiftFor, IsPowerOfTwo,
      PeekAt;
  }

  lemma ConstantFoldingKeepShape(g: Guards, prog: seq<Instr>, index: nat)
    requires EndsInEOF(prog)
    ensures KeepsShape(prog, ConstantFolding(g, prog, index).prog)
  {
    hide RegistersEqual, CanForward, CanMoveUp, CanPopInto, CanSwap, CanDrop, Fold, FoldsExactly, CombinesExactly,
      Known, ShiftFor, IsPowerOfTwo,
      PeekAt;
  }

  lemma RulesKeepShape(g: Guards, prog: seq<Instr>, index: nat)
    requires EndsInEOF(prog)
    ensures KeepsShape(prog, StackOperations(g, prog, index).prog)
    ensures KeepsShape(prog, LoadsAndStores(g, prog, index).prog)
    ensures KeepsShape(prog, MathOperations(g, prog, index).prog)
    ensures KeepsShape(prog, ConstantFolding(g, prog, index).prog)
  {
    hide StackOperations, LoadsAndStores, MathOperations, ConstantFolding;
    StackOperationsKeepShape(g, prog, index);
    LoadsAndStoresKeepShape(g, prog, index);
    MathOperationsKeepShape(g, prog, index);
    ConstantFoldingKeepShape(g, prog, index);
  }

  /** The four groups of rules tried at one index, one after the other. */
  ghost function Visit(g: Guards, prog: seq<Instr>, index: nat): (r: Rewritten)
    requires EndsInEOF(prog)
    ensures KeepsShape(prog, r.prog)
  {
    RulesKeepShape(g, prog, index);
    var r1 := StackOperations(g, prog, index);
    RulesKeepShape(g, r1.prog, index);
    var r2 := LoadsAndStores(g, r1.prog, index);
    RulesKeepShape(g, r2.prog, index);
    var r3 := MathOperations(g, r2.prog, index);
    RulesKeepShape(g, r3.prog, index);
    var r4 := ConstantFolding(g, r3.prog, index);
    Rewritten(r4.prog, r1.safe && r2.safe && r3.safe && r4.safe, r1.right && r2.right && r3.right && r4.right)
  }

  /** The first `count` indices visited from the left. */
  ghost function VisitAll(oracle: Oracle, pass: nat, prog: seq<Instr>, count: nat): (r: Rewritten)
    requires EndsInEOF(prog)
    ensures KeepsShape(prog, r.prog)
  {
    if count == 0 then Rewritten(prog, true, true)
    else
      var before := VisitAll(oracle, pass, prog, count - 1);
      var r := Visit(oracle(pass, count - 1), before.prog, count - 1);
      Rewritten(r.prog, before.safe && r.safe, before.right && r.right)
  }

  /** A number of passes over the whole program. */
  ghost function Passes(oracle: Oracle, prog: seq<Instr>, count: nat): (r: Rewritten)
    requires EndsInEOF(prog)
    ensures KeepsShape(prog, r.prog)
  {
    if count == 0 then Rewritten(prog, true, true)
    else
      var before := Passes(oracle, prog, count - 1);
      var r := VisitAll(oracle, count - 1, before.prog, |before.prog|);
      Rewritten(r.prog, before.safe && r.safe, before.right && r.right)
  }

  ghost function Optimized(oracle: Oracle, prog: seq<Instr>): Rewritten
    requires EndsInEOF(prog)
  {
    Passes(oracle, prog, PASS_COUNT)
  }

  /** One whole pass after the other, three in all. */
  lemma ThreePasses(oracle: Oracle, prog: seq<Instr>)
    requires EndsInEOF(prog)
    ensures var first := VisitAll(oracle, 0, prog, |prog|).prog;
      var second := VisitAll(oracle, 1, first, |prog|).prog;
      Optimized(oracle, prog).prog == VisitAll(oracle, 2, second, |prog|).prog
  {
    hide VisitAll;
    var one := Passes(oracle, prog, 1).prog;
    var two := Passes(oracle, prog, 2).prog;
    assert Passes(oracle, prog, 0).prog == prog;
    assert one == VisitAll(oracle, 0, prog, |prog|).prog;
    assert two == VisitAll(oracle, 1, one, |prog|).prog;
  }

  // ----- The optimizer -----

  class Optimizer {
    const instructions: array<Instr>
    const oracle: Oracle
    var pass: nat
    var index: nat

    constructor (instructions: array<Instr>, oracle: Oracle)
      ensures this.instructions == instructions && this.oracle == oracle && pass == index == 0
    {
      this.instructions, this.oracle, pass, index := instructions, oracle, 0, 0;
    }

    /** What the guards say here. */
    function Now(): Guards
      reads this
    {
      oracle(pass, index)
    }

    method PeekFrom(position: int, forward: bool) returns (p: nat)
      requires EndsInEOF(instructions[..])
      ensures p == PeekAt(instructions[..], position, forward)
      decreases if forward then instructions.Length - position else position
    {
      if position < 0 || position >= instructions.Length {
        return instructions.Length - 1;
      }
      if instructions[position].op.NOP? {
        p := PeekFrom(if forward then position + 1 else position - 1, forward);
      } else {
        p := position;
      }
    }

    method PeekNext(offset: nat) returns (p: nat)
      requires EndsInEOF(instructions[..])
      ensures p == Peek(instructions[..], index, offset) && p < instructions.Length
    {
      p := PeekFrom(index + offset, offset > 0);
    }

    method OmitAt(p: nat)
      requires p < instructions.Length
      modifies instructions
      ensures instructions[..] == old(instructions[..])[p := Omit(old(instructions[p]))]
    {
      instructions[p] := instructions[p].(op := NOP);
    }

    method ForwardTo(t: nat, n: nat)
      requires t < n < instructions.Length
      modifies instructions
      ensures instructions[..] == Forward(old(instructions[..]), t, n).prog
    {
      OmitAt(t);
      instructions[n] := instructions[n].(src := instructions[t].src);
    }

    method OptimizeStackOperations()
      requires EndsInEOF(instructions[..])
      modifies instructions
      ensures instructions[..] == StackOperations(Now(), old(instructions[..]), index).prog
      ensures EndsInEOF(instructions[..])
    {
      hide PeekAt, CanForward, CanMoveUp, CanPopInto, Known;
      RulesKeepShape(Now(), instructions[..], index);
      var t := PeekNext(0);
      var n := PeekNext(1);
      var a, b := instructions[t], instructions[n];
      if a.op.PUSH? && b.op.POP? {
        OmitAt(t);
        if a.src.Register? {
          if RegistersEqual(Now(), a.src, b.dst) {
            OmitAt(n);
          } else {
            instructions[n] := Instr(STORE, b.dst, a.src);
          }
        } else {
          instructions[n] := Instr(LOAD, b.dst, a.src);
        }
        return;
      }
      if a.op.LOAD? && a.dst.Register? && b.op.PUSH? && b.src.Register? && RegistersEqual(Now(), a.dst, b.src)
         && !a.src.Register? {
        Apart(instructions[..], index);
        ForwardTo(t, n);
        return;
      }
      var u := PeekNext(2);
      var d := instructions[u];
      if a.op.PUSH? && IsMove(b.op) && d.op.POP? && !RegistersEqual(Now(), d.dst, b.dst) {
        OmitAt(u);
        instructions[t] := Instr(LOAD, d.dst, a.src);
        return;
      }
      if a.op.POP? && IsMove(b.op) && a.dst.Register? && b.src.Register? && RegistersEqual(Now(), a.dst, b.src)
         && Now().poppedAlike(a.dst, b.src) {
        OmitAt(t);
        instructions[n] := b.(op := POP);
      }
    }

    method OptimizeLoadsAndStores()
      requires EndsInEOF(instructions[..])
      modifies instructions
      ensures instructions[..] == LoadsAndStores(Now(), old(instructions[..]), index).prog
      ensures EndsInEOF(instructions[..])
    {
      hide PeekAt, CanForward, Known;
      RulesKeepShape(Now(), instructions[..], index);
      Apart(instructions[..], index);
      var t := PeekNext(0);
      var n := PeekNext(1);
      var a, b := instructions[t], instructions[n];
      if IsMove(a.op) && a.dst.Register? && a.src.Register? && a.dst == a.src && Now().movedAlike(a.dst, a.src) {
        OmitAt(t);
      } else if a.op.LOAD? && a.src.Imm? && b.op.STORE? && b.src.Register? && RegistersEqual(Now(), b.src, a.dst) {
        ForwardTo(t, n);
      } else if a.op.LOAD? && a.dst.Register? && a.src.Argument? && b.op.STORE? && b.src.Register?
                && RegistersEqual(Now(), a.dst, b.src) {
        ForwardTo(t, n);
      } else if a.op.LOAD? && a.dst.Register? && b.src.Register? && RegistersEqual(Now(), a.dst, b.src)
                && Now().loadedAlike(a.src, b.dst) {
        ForwardTo(t, n);
      }
    }

    method OptimizeMathOperations()
      requires EndsInEOF(instructions[..])
      modifies instructions
      ensures instructions[..] == MathOperations(Now(), old(instructions[..]), index).prog
      ensures EndsInEOF(instructions[..])
    {
      hide PeekAt, CanForward, CanSwap, Known, IsPowerOfTwo, ShiftFor;
      RulesKeepShape(Now(), instructions[..], index);
      Apart(instructions[..], index);
      var t := PeekNext(0);
      var n := PeekNext(1);
      var a, b := instructions[t], instructions[n];
      if (a.op.ADD? || a.op.SUB? || a.op.SHL? || a.op.SHR?) && a.src == Imm(0) {
        OmitAt(t);
        return;
      }
      if (a.op.MUL? || a.op.DIV?) && a.src == Imm(1) {
        OmitAt(t);
        return;
      }
      if (a.op.MUL? || a.op.DIV?) && a.dst.Register? && a.src.Imm? && IsPowerOfTwo(Bits(a.src.n)) {
        instructions[t] := Instr(if a.op.MUL? then SHL else SHR, a.dst, Imm(ShiftFor(a.src.n)));
        return;
      }
      var u := PeekNext(2);
      var d := instructions[u];
      if a.op.STORE? && a.dst.Register? && a.src.Register? && b.op.POP? && b.dst.Register? && a.src == b.dst
         && (d.op.ADD? || d.op.MUL?) && RegistersEqual(Now(), d.dst, b.dst) && RegistersEqual(Now(), d.src, a.dst) {
        OmitAt(t);
        instructions[n] := b.(dst := a.dst);
      } else if a.op.STORE? && a.dst.Register? && a.src.Imm? && IsMath(b.op) && b.dst.Register?
                && RegistersEqual(Now(), b.src, a.dst) {
        ForwardTo(t, n);
      }
    }

    method OptimizeConstantFolding()
      requires EndsInEOF(instructions[..])
      modifies instructions
      ensures instructions[..] == ConstantFolding(Now(), old(instructions[..]), index).prog
      ensures EndsInEOF(instructions[..])
    {
      hide PeekAt, Fold, FoldsExactly;
      RulesKeepShape(Now(), instructions[..], index);
      var t := PeekNext(0);
      var n := PeekNext(1);
      var a, b := instructions[t], instructions[n];
      if a.op.LOAD? && IsMath(b.op) && a.src.Imm? && b.src.Imm? && b.dst.Register? && a.dst.Register?
         && a.dst == b.dst {
        var result := Fold(Now(), b.op, a.src.n, b.src.n);
        OmitAt(n);
        instructions[t] := a.(src := Imm(result));
        return;
      }
      if IsMath(a.op) && IsMath(b.op) && a.dst.Register? && b.dst.Register? && a.dst == b.dst
         && a.src.Imm? && b.src.Imm? {
        var result := Fold(Now(), a.op, a.src.n, b.src.n);
        OmitAt(n);
        instructions[t] := a.(src := Imm(result));
      }
    }

    method DoPrimaryPass()
      requires EndsInEOF(instructions[..])
      modifies this`index, instructions
      ensures instructions[..] == VisitAll(oracle, pass, old(instructions[..]), instructions.Length).prog
      ensures EndsInEOF(instructions[..])
    {
      hide StackOperations, LoadsAndStores, MathOperations, ConstantFolding;
      index := 0;
      while index < instructions.Length
        invariant index <= instructions.Length && EndsInEOF(instructions[..])
        invariant instructions[..] == VisitAll(oracle, pass, old(instructions[..]), index).prog
        decreases instructions.Length - index
      {
        OptimizeStackOperations();
        OptimizeLoadsAndStores();
        OptimizeMathOperations();
        OptimizeConstantFolding();
        index := index + 1;
      }
    }

    method Optimize()
      requires EndsInEOF(instructions[..])
      modifies this, instructions
      ensures instructions[..] == Optimized(oracle, old(instructions[..])).prog
    {
      hide VisitAll;
      for i := 0 to PASS_COUNT
        invariant EndsInEOF(instructions[..])
        invariant instructions[..] == Passes(oracle, old(instructions[..]), i).prog
      {
        pass := i;
        DoPrimaryPass();
      }
    }
  }

  // ----- Where the peeked instructions lie -----

  /** Only NOPs between two positions. */
  predicate Blank(prog: seq<Instr>, lo: nat, hi: nat)
    requires hi <= |prog|
  {
    forall i :: lo < i < hi ==> prog[i].op.NOP?
  }

  lemma {:induction false} PeekForward(prog: seq<Instr>, position: nat)
    requires EndsInEOF(prog)
    ensures var p := PeekAt(prog, position, true);
      if position >= |prog| then p == |prog| - 1
      else position <= p && forall i :: position <= i < p ==> prog[i].op.NOP?
    decreases |prog| - position
  {
    if position < |prog| && prog[position].op.NOP? {
      assert position != |prog| - 1;
      PeekForward(prog, position + 1);
    }
  }

  lemma {:induction false} PeekBackward(prog: seq<Instr>, position: nat)
    requires EndsInEOF(prog) && position < |prog|
    ensures var p := PeekAt(prog, position, false);
      p == |prog| - 1 || (p <= position && forall i :: p < i <= position ==> prog[i].op.NOP?)
    decreases position
  {
    if prog[position].op.NOP? && position > 0 {
      PeekBackward(prog, position - 1);
    }
  }

  /** What a window sees: two neighbours in the program without its NOPs, or the final EOF as the
      first of them; and a third one, or the second again. */
  lemma Apart(prog: seq<Instr>, index: nat)
    requires EndsInEOF(prog)
    ensures var t, n, u := Peek(prog, index, 0), Peek(prog, index, 1), Peek(prog, index, 2);
      prog[t].op.EOF? || (t < n && Blank(prog, t, n) && (u == n || (n < u && Blank(prog, n, u))))
  {
    if index >= |prog| {
      return;
    }
    PeekBackward(prog, index);
    PeekForward(prog, index + 1);
    PeekForward(prog, index + 2);
  }
}
