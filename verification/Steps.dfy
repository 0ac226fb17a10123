/** What single instructions do, one lemma an instruction form. */
module Steps {
  import opened Words
  import opened Environment
  import opened Lir
  import opened Lowering
  import opened Runs

  lemma StepLoad(prog: seq<Instr>, w: World, m: Machine, o: Operand, v: Word)
    requires Fetches(prog, m, Load(T1, o)) && Read(w, m, o) == Some(v)
    ensures Step(prog, w, m) == m.(pc := m.pc + 1, t1 := v)
  {
    hide Read;
  }

  lemma StepPush(prog: seq<Instr>, w: World, m: Machine)
    requires Fetches(prog, m, Push(T1))
    ensures Step(prog, w, m) == m.(pc := m.pc + 1, stack := m.stack + [m.t1])
  {
  }

  lemma StepPopFirst(prog: seq<Instr>, w: World, m: Machine, rest: seq<Word>, v: Word)
    requires Fetches(prog, m, Pop(T1)) && m.stack == rest + [v]
    ensures Step(prog, w, m) == m.(pc := m.pc + 1, t1 := v, stack := rest)
  {
    assert m.stack[..|m.stack| - 1] == rest;
  }

  lemma StepPopSecond(prog: seq<Instr>, w: World, m: Machine, rest: seq<Word>, v: Word)
    requires Fetches(prog, m, Pop(T2)) && m.stack == rest + [v]
    ensures Step(prog, w, m) == m.(pc := m.pc + 1, slots := m.slots[T2_SLOT := v], stack := rest)
  {
    assert m.stack[..|m.stack| - 1] == rest;
  }

  lemma StepMath(prog: seq<Instr>, w: World, m: Machine, op: Opcode, x: Option<Word>)
    requires IsMath(op) && Fetches(prog, m, Instr(op, T1, T2)) && x == Alu(op, m.t1, m.slots[T2_SLOT])
    ensures Step(prog, w, m) ==
      if x.None? then m.(status := Trapped)
      else WithRemainder(w, m, Instr(op, T1, T2), m.t1, m.slots[T2_SLOT]).(pc := m.pc + 1, t1 := x.value)
  {
    hide Alu, Effect, Goto;
    MathEffect(w, m, op, x);
  }

  lemma MathEffect(w: World, m: Machine, op: Opcode, x: Option<Word>)
    requires IsMath(op) && |m.slots| == MAX_REGISTER_ARGUMENTS && x == Alu(op, m.t1, m.slots[T2_SLOT])
    ensures Effect(w, m, Instr(op, T1, T2)) ==
      if x.None? then m.(status := Trapped)
      else WithRemainder(w, m, Instr(op, T1, T2), m.t1, m.slots[T2_SLOT]).(t1 := x.value)
  {
    hide Alu, Move, PushValue, Call, DoUnary, SetResult, Product;
  }

  lemma StepCompare(prog: seq<Instr>, w: World, m: Machine)
    requires Fetches(prog, m, Instr(COMPARE, T1, T2))
    ensures Step(prog, w, m) == m.(pc := m.pc + 1, compared := (m.t1, m.slots[T2_SLOT]))
  {
  }

  lemma StepSet(prog: seq<Instr>, w: World, m: Machine, op: Opcode)
    requires IsSet(op) && Fetches(prog, m, Instr(op, T1, T1))
    ensures Step(prog, w, m) == m.(pc := m.pc + 1, t1 := SetResult(op, m.compared))
  {
    hide SetResult;
  }

  lemma StepUnary(prog: seq<Instr>, w: World, m: Machine, op: Opcode)
    requires (op.NEG? || op.NOT? || op.BOOL_NOT?) && Fetches(prog, m, Instr(op, T1, Nothing))
    ensures Step(prog, w, m) == m.(pc := m.pc + 1, t1 := UnaryResult(op, m.t1))
  {
    hide UnaryResult;
  }

  lemma StepStoreLocal(prog: seq<Instr>, w: World, m: Machine, uid: nat)
    requires Fetches(prog, m, Store(Local(uid), T1))
    ensures Step(prog, w, m) == m.(pc := m.pc + 1, locals := m.locals[uid := m.t1])
  {
  }

  lemma StepStoreArgument(prog: seq<Instr>, w: World, m: Machine, index: nat, total: nat)
    requires Fetches(prog, m, StoreArgument(index, total))
    ensures Step(prog, w, m) ==
      if index < MAX_REGISTER_ARGUMENTS then m.(pc := m.pc + 1, slots := m.slots[index := m.t1])
      else m.(pc := m.pc + 1, stack := m.stack + [m.t1])
  {
  }

  /** Labels and block markers only move on. */
  lemma StepMarker(prog: seq<Instr>, w: World, m: Machine, i: Instr)
    requires i.op.NEW_LABEL? || i.op.START_BLOCK? || i.op.END_BLOCK? || i.op.START_FUNC? || i.op.NOP?
    requires Fetches(prog, m, i)
    ensures Step(prog, w, m) == m.(pc := m.pc + 1)
  {
  }

  /** Position p defines the label. */
  ghost predicate Defines(prog: seq<Instr>, p: nat, id: nat) {
    p < |prog| && prog[p] == NewLabel(id)
  }

  lemma StepJump(prog: seq<Instr>, w: World, m: Machine, i: Instr, id: nat, p: nat)
    requires Fetches(prog, m, i) && i.op.JMP? && i.dst == Label(id)
    requires UniqueLabels(prog) && Defines(prog, p, id)
    ensures Step(prog, w, m) == m.(pc := p)
  {
    FindUnique(prog, p, id);
  }

  lemma StepJumpIf(prog: seq<Instr>, w: World, m: Machine, onTrue: bool, id: nat, p: nat)
    requires Fetches(prog, m, if onTrue then JumpTrue(id) else JumpFalse(id))
    requires UniqueLabels(prog) && Defines(prog, p, id)
    ensures Step(prog, w, m) == m.(pc := if (m.t1 != 0) == onTrue then p else m.pc + 1)
  {
    FindUnique(prog, p, id);
  }
}
