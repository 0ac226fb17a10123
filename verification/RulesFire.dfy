/** That the optimizer's rules do something: on the windows they are for they leave what is meant to be
    left, whatever the verdicts on types where none is asked for. */
module RulesFire {
  import opened Words
  import opened WordAlgebra
  import opened Lir
  import opened Lowering
  import opened Optimizing

  function Blanked(i: Instr): Instr {
    Instr(NOP, i.dst, i.src)
  }

  /** Where the three instructions of a short program are. */
  lemma ShortPeeks(a: Instr, b: Instr, d: Instr)
    requires !a.op.NOP? && !b.op.NOP? && !d.op.NOP?
    ensures var prog := [a, b, d, END];
      EndsInEOF(prog) && Peek(prog, 0, 0) == 0 && Peek(prog, 0, 1) == 1 && Peek(prog, 0, 2) == 2
  {
  }

  /** What a register gets by push and pop, or by way of the first temporary. */
  lemma StackRulesFire(g: Guards, x: Operand, n: Word, d: Instr)
    requires !d.op.NOP? && (x.Imm? || x.Local?)
    ensures StackOperations(g, [Push(T1), Pop(T1), d, END], 0).prog == [Blanked(Push(T1)), Blanked(Pop(T1)), d, END]
    ensures StackOperations(g, [Push(T1), Pop(T2), d, END], 0).prog == [Blanked(Push(T1)), Store(T2, T1), d, END]
    ensures StackOperations(g, [Push(x), Pop(T2), d, END], 0).prog == [Blanked(Push(x)), Load(T2, x), d, END]
    ensures StackOperations(g, [Load(T1, x), Push(T1), d, END], 0).prog == [Blanked(Load(T1, x)), Push(x), d, END]
    ensures StackOperations(g, [Push(x), Load(T2, Imm(n)), Pop(T1), END], 0).prog
      == [Load(T1, x), Load(T2, Imm(n)), Blanked(Pop(T1)), END]
    ensures g.poppedAlike(T1, T1) ==>
      StackOperations(g, [Pop(T1), Store(Argument(1, 2, 1, true), T1), d, END], 0).prog
        == [Blanked(Pop(T1)), Instr(POP, Argument(1, 2, 1, true), T1), d, END]
  {
    hide Peek, CanForward, CanMoveUp, CanPopInto, Known;
    ShortPeeks(Push(T1), Pop(T1), d);
    ShortPeeks(Push(T1), Pop(T2), d);
    ShortPeeks(Push(x), Pop(T2), d);
    ShortPeeks(Load(T1, x), Push(T1), d);
    ShortPeeks(Push(x), Load(T2, Imm(n)), Pop(T1));
    ShortPeeks(Pop(T1), Store(Argument(1, 2, 1, true), T1), d);
  }

  /** Moves of a register into itself, and values that are stored where they were loaded for. */
  lemma LoadRulesFire(g: Guards, n: Word, uid: nat, d: Instr)
    requires !d.op.NOP?
    ensures g.movedAlike(T1, T1) ==>
      LoadsAndStores(g, [Load(T1, T1), d, d, END], 0).prog == [Blanked(Load(T1, T1)), d, d, END]
    ensures LoadsAndStores(g, [Load(T1, Imm(n)), Store(Local(uid), T1), d, END], 0).prog
      == [Blanked(Load(T1, Imm(n))), Store(Local(uid), Imm(n)), d, END]
    ensures LoadsAndStores(g, [Load(T1, Argument(0, 2, 0, false)), Store(Local(uid), T1), d, END], 0).prog
      == [Blanked(Load(T1, Argument(0, 2, 0, false))), Store(Local(uid), Argument(0, 2, 0, false)), d, END]
    ensures g.loadedAlike(Local(uid), T1) ==>
      LoadsAndStores(g, [Load(T2, Local(uid)), Instr(ADD, T1, T2), d, END], 0).prog
        == [Blanked(Load(T2, Local(uid))), Instr(ADD, T1, Local(uid)), d, END]
  {
    hide Peek, CanForward, Known;
    ShortPeeks(Load(T1, T1), d, d);
    ShortPeeks(Load(T1, Imm(n)), Store(Local(uid), T1), d);
    ShortPeeks(Load(T1, Argument(0, 2, 0, false)), Store(Local(uid), T1), d);
    ShortPeeks(Load(T2, Local(uid)), Instr(ADD, T1, T2), d);
  }

  /** Operations that change nothing, powers of two, swapped operands and constants in a temporary. */
  lemma MathRulesFire(g: Guards, op: Opcode, n: Word, d: Instr)
    requires !d.op.NOP?
    ensures op.ADD? || op.SUB? || op.SHL? || op.SHR? ==>
      MathOperations(g, [Instr(op, T1, Imm(0)), d, d, END], 0).prog == [Blanked(Instr(op, T1, Imm(0))), d, d, END]
    ensures op.MUL? || op.DIV? ==>
      MathOperations(g, [Instr(op, T1, Imm(1)), d, d, END], 0).prog == [Blanked(Instr(op, T1, Imm(1))), d, d, END]
    ensures (op.MUL? || op.DIV?) && IsPowerOfTwo(Bits(n)) && n != 1 ==>
      MathOperations(g, [Instr(op, T1, Imm(n)), d, d, END], 0).prog
        == [Instr(if op.MUL? then SHL else SHR, T1, Imm(ShiftFor(n))), d, d, END]
    ensures op.ADD? || op.MUL? ==>
      MathOperations(g, [Store(T2, T1), Pop(T1), Instr(op, T1, T2), END], 0).prog
        == [Blanked(Store(T2, T1)), Pop(T2), Instr(op, T1, T2), END]
    ensures IsMath(op) ==>
      MathOperations(g, [Store(T2, Imm(n)), Instr(op, T1, T2), d, END], 0).prog
        == [Blanked(Store(T2, Imm(n))), Instr(op, T1, Imm(n)), d, END]
  {
    hide Peek, CanForward, CanSwap, CanDrop, Known, IsPowerOfTwo, ShiftFor, Bits;
    if IsMath(op) {
      ShortPeeks(Instr(op, T1, Imm(0)), d, d);
      ShortPeeks(Instr(op, T1, Imm(1)), d, d);
      ShortPeeks(Instr(op, T1, Imm(n)), d, d);
      ShortPeeks(Store(T2, T1), Pop(T1), Instr(op, T1, T2));
      ShortPeeks(Store(T2, Imm(n)), Instr(op, T1, T2), d);
    }
  }

  /** Constants that meet. */
  lemma FoldRulesFire(g: Guards, first: Opcode, second: Opcode, x: Word, y: Word, d: Instr)
    requires !d.op.NOP? && IsMath(first) && IsMath(second)
    ensures ConstantFolding(g, [Load(T1, Imm(x)), Instr(second, T1, Imm(y)), d, END], 0).prog
      == [Load(T1, Imm(Fold(g, second, x, y))), Blanked(Instr(second, T1, Imm(y))), d, END]
    ensures ConstantFolding(g, [Instr(first, T1, Imm(x)), Instr(second, T1, Imm(y)), d, END], 0).prog
      == [Instr(first, T1, Imm(Fold(g, first, x, y))), Blanked(Instr(second, T1, Imm(y))), d, END]
  {
    hide Peek, CanDrop, Fold, FoldsExactly, CombinesExactly;
    ShortPeeks(Load(T1, Imm(x)), Instr(second, T1, Imm(y)), d);
    ShortPeeks(Instr(first, T1, Imm(x)), Instr(second, T1, Imm(y)), d);
  }
}
