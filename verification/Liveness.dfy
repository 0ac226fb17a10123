/** Registers that no longer matter: a static check that a register is overwritten before it is
    read, and what it means for runs. */
module Liveness {
  import opened Words
  import opened Environment
  import opened Lir

  /** A register the machine keeps: `t1`, or one of the argument registers (RCX is `t2` as well). */
  datatype Cell = Accumulator | Slot(index: nat)

  /** The register behind an operand. */
  function CellOf(o: Operand): Option<Cell> {
    match o
    case Register(number, temporary) =>
      if number == 0 then Some(Accumulator)
      else if number == 1 && temporary then Some(Slot(T2_SLOT))
      else None
    case Argument(index, total, intsPassed, isCaller) =>
      if intsPassed < MAX_REGISTER_ARGUMENTS then Some(Slot(intsPassed)) else None
    case _ => None
  }

  predicate Is(o: Operand, c: Cell) {
    CellOf(o) == Some(c)
  }

  predicate ReadsDestination(op: Opcode) {
    IsMath(op) || op.COMPARE? || op.NEG? || op.NOT? || op.BOOL_NOT?
  }

  predicate ReadsSource(op: Opcode) {
    || IsMath(op) || op.LOAD? || op.STORE? || op.PUSH? || op.COMPARE?
    || op.JMP_TRUE? || op.JMP_FALSE? || op.RETURN?
  }

  predicate WritesDestination(op: Opcode) {
    IsMath(op) || IsSet(op) || op.LOAD? || op.STORE? || op.POP? || op.NEG? || op.NOT? || op.BOOL_NOT?
  }

  /** May the instruction use what the register holds? A call reads the registers of its arguments. */
  predicate Uses(i: Instr, c: Cell) {
    || (ReadsDestination(i.op) && Is(i.dst, c))
    || (ReadsSource(i.op) && Is(i.src, c))
    || (i.op.CALL? && c.Slot? && i.dst.Argument? && c.index < i.dst.total)
  }

  /** Does the instruction give the register a new value? A call does so with all of them. */
  predicate Overwrites(i: Instr, c: Cell) {
    || (WritesDestination(i.op) && Is(i.dst, c))
    || i.op.CALL?
    || ((i.op.DIV? || i.op.MOD?) && c == Slot(REMAINDER_SLOT))
  }

  /** May the register hold something else after the instruction? After a multiplication it may hold
      what it held. */
  predicate Changes(i: Instr, c: Cell) {
    Overwrites(i, c) || (SpoilsRemainder(i) && c == Slot(REMAINDER_SLOT))
  }

  /** The register is overwritten before it is used on every path from position k, as far as the
      first n instructions show. */
  predicate DeadFor(prog: seq<Instr>, k: nat, c: Cell, n: nat)
    decreases n, 1
  {
    n > 0 && k < |prog| ==> !Uses(prog[k], c) && DeadPastFor(prog, k, c, n)
  }

  /** The same for the paths after the instruction at position k. */
  predicate DeadPastFor(prog: seq<Instr>, k: nat, c: Cell, n: nat)
    requires k < |prog| && n > 0
    decreases n, 0
  {
    match prog[k].op
    case JMP => DeadAtFor(prog, prog[k].dst, c, n - 1)
    case JMP_TRUE => DeadAtFor(prog, prog[k].dst, c, n - 1) && DeadFor(prog, k + 1, c, n - 1)
    case JMP_FALSE => DeadAtFor(prog, prog[k].dst, c, n - 1) && DeadFor(prog, k + 1, c, n - 1)
    case RETURN => true
    case END_FUNC => true
    case EOF => true
    case _ => Overwrites(prog[k], c) || DeadFor(prog, k + 1, c, n - 1)
  }

  predicate DeadAtFor(prog: seq<Instr>, target: Operand, c: Cell, n: nat)
    decreases n, 2
  {
    target.Label? ==> DeadFor(prog, Find(prog, target.id), c, n)
  }

  /** The register is overwritten before it is used on every path from position k. */
  ghost predicate Dead(prog: seq<Instr>, k: nat, c: Cell) {
    forall n: nat :: DeadFor(prog, k, c, n)
  }

  ghost predicate DeadPast(prog: seq<Instr>, k: nat, c: Cell)
    requires k < |prog|
  {
    forall n: nat :: n > 0 ==> DeadPastFor(prog, k, c, n)
  }

  ghost predicate DeadAt(prog: seq<Instr>, target: Operand, c: Cell) {
    target.Label? ==> Dead(prog, Find(prog, target.id), c)
  }

  /** One step of the check, for an instruction. */
  lemma DeadHere(prog: seq<Instr>, k: nat, c: Cell)
    requires k < |prog|
    ensures Dead(prog, k, c) <==> !Uses(prog[k], c) && DeadPast(prog, k, c)
  {
    hide Uses, DeadPastFor;
    if Dead(prog, k, c) {
      assert DeadFor(prog, k, c, 1);
      forall n: nat | n > 0
        ensures DeadPastFor(prog, k, c, n)
      {
        assert DeadFor(prog, k, c, n);
      }
    } else {
      var n: nat :| !DeadFor(prog, k, c, n);
      assert !(DeadPast(prog, k, c) && !DeadPastFor(prog, k, c, n));
    }
  }

  lemma DeadOnward(prog: seq<Instr>, k: nat, c: Cell)
    requires k < |prog| && !IsControl(prog[k].op)
    ensures DeadPast(prog, k, c) <==> Overwrites(prog[k], c) || Dead(prog, k + 1, c)
  {
    hide Overwrites, DeadFor;
    var next := k + 1;
    if DeadPast(prog, k, c) && !Overwrites(prog[k], c) {
      forall n: nat
        ensures DeadFor(prog, next, c, n)
      {
        assert DeadPastFor(prog, k, c, n + 1);
      }
    }
    if Dead(prog, k + 1, c) {
      forall n: nat | n > 0
        ensures DeadPastFor(prog, k, c, n)
      {
        assert DeadFor(prog, k + 1, c, n - 1);
      }
    }
  }

  lemma DeadAfterJump(prog: seq<Instr>, k: nat, c: Cell)
    requires k < |prog| && (prog[k].op.JMP? || prog[k].op.JMP_TRUE? || prog[k].op.JMP_FALSE?)
    ensures DeadPast(prog, k, c) <==> DeadAt(prog, prog[k].dst, c) && (prog[k].op.JMP? || Dead(prog, k + 1, c))
  {
    hide DeadFor, Find;
    var next := k + 1;
    if DeadPast(prog, k, c) {
      forall n: nat
        ensures DeadAtFor(prog, prog[k].dst, c, n)
        ensures prog[k].op.JMP? || DeadFor(prog, next, c, n)
      {
        assert DeadPastFor(prog, k, c, n + 1);
      }
      JumpDead(prog, prog[k].dst, c);
    }
    if DeadAt(prog, prog[k].dst, c) && (prog[k].op.JMP? || Dead(prog, k + 1, c)) {
      forall n: nat | n > 0
        ensures DeadPastFor(prog, k, c, n)
      {
        assert prog[k].op.JMP? || DeadFor(prog, next, c, n - 1);
        assert prog[k].dst.Label? ==> DeadFor(prog, Find(prog, prog[k].dst.id), c, n - 1);
      }
    }
  }

  lemma JumpDead(prog: seq<Instr>, target: Operand, c: Cell)
    requires forall n: nat :: DeadAtFor(prog, target, c, n)
    ensures DeadAt(prog, target, c)
  {
    hide DeadFor, Find;
    forall n: nat | target.Label?
      ensures DeadFor(prog, Find(prog, target.id), c, n)
    {
      assert DeadAtFor(prog, target, c, n);
    }
  }

  // ----- Machines that differ in one register -----

  function Erase(m: Machine, c: Cell): Machine {
    match c
    case Accumulator => m.(t1 := 0)
    case Slot(i) => if i < |m.slots| then m.(slots := m.slots[i := 0]) else m
  }

  ghost predicate SameBut(c: Cell, m: Machine, m': Machine) {
    m.Valid() && m'.Valid() && Erase(m, c) == Erase(m', c)
  }

  lemma ReadSame(w: World, c: Cell, m: Machine, m': Machine, o: Operand)
    requires SameBut(c, m, m') && !Is(o, c)
    ensures Read(w, m, o) == Read(w, m', o)
  {
    SlotsSame(c, m, m');
  }

  /** What differs is the one register only. */
  lemma SlotsSame(c: Cell, m: Machine, m': Machine)
    requires SameBut(c, m, m')
    ensures m.pc == m'.pc && m.stack == m'.stack && m.locals == m'.locals && m.compared == m'.compared
    ensures m.trace == m'.trace && m.status == m'.status && |m.slots| == |m'.slots|
    ensures c != Accumulator ==> m.t1 == m'.t1
    ensures forall i :: 0 <= i < |m.slots| && c != Slot(i) ==> m.slots[i] == m'.slots[i]
  {
    forall i | 0 <= i < |m.slots| && c != Slot(i)
      ensures m.slots[i] == m'.slots[i]
    {
      assert Erase(m, c).slots[i] == m.slots[i] && Erase(m', c).slots[i] == m'.slots[i];
    }
  }

  lemma SameButFrom(c: Cell, m: Machine, m': Machine)
    requires m.Valid() && m'.Valid()
    requires m.pc == m'.pc && m.stack == m'.stack && m.locals == m'.locals && m.compared == m'.compared
    requires m.trace == m'.trace && m.status == m'.status
    requires c != Accumulator ==> m.t1 == m'.t1
    requires forall i :: 0 <= i < |m.slots| && c != Slot(i) ==> m.slots[i] == m'.slots[i]
    ensures SameBut(c, m, m')
  {
    assert Erase(m, c).slots == Erase(m', c).slots;
  }

  /** The same write to both keeps the difference where it was. */
  lemma WriteSame(c: Cell, m: Machine, m': Machine, o: Operand, v: Word)
    requires SameBut(c, m, m')
    ensures SameBut(c, Write(m, o, v), Write(m', o, v))
    ensures Is(o, c) && Write(m, o, v).status.Running? ==> Write(m, o, v) == Write(m', o, v)
  {
    SlotsSame(c, m, m');
    SameButFrom(c, Write(m, o, v), Write(m', o, v));
    if Is(o, c) && Write(m, o, v).status.Running? {
      assert Write(m, o, v).slots == Write(m', o, v).slots;
    }
  }

  // ----- Steps of machines that differ in one register -----

  /** Two results that came from machines differing in a register: they still differ at most there,
      and not at all once the register has a new value. */
  ghost predicate StillSame(c: Cell, overwritten: bool, m: Machine, m': Machine) {
    SameBut(c, m, m') && (overwritten && m.status.Running? ==> m == m')
  }

  lemma MoveSame(w: World, c: Cell, m: Machine, m': Machine, dst: Operand, src: Operand)
    requires SameBut(c, m, m') && !Is(src, c)
    ensures StillSame(c, Is(dst, c), Move(w, m, dst, src), Move(w, m', dst, src))
  {
    hide SameBut, Read, Write, Is;
    ReadSame(w, c, m, m', src);
    var v := Read(w, m, src);
    if v.None? {
      StatusSame(c, m, m', Stuck);
    } else {
      WriteSame(c, m, m', dst, v.value);
    }
  }

  lemma StatusSame(c: Cell, m: Machine, m': Machine, s: Status)
    requires SameBut(c, m, m')
    ensures SameBut(c, m.(status := s), m'.(status := s))
  {
  }

  lemma StackSame(c: Cell, m: Machine, m': Machine, stack: seq<Word>)
    requires SameBut(c, m, m')
    ensures m.stack == m'.stack && SameBut(c, m.(stack := stack), m'.(stack := stack))
  {
  }

  lemma ComparedSame(c: Cell, m: Machine, m': Machine, compared: (Word, Word))
    requires SameBut(c, m, m')
    ensures m.compared == m'.compared && SameBut(c, m.(compared := compared), m'.(compared := compared))
  {
  }

  lemma PcSame(c: Cell, m: Machine, m': Machine, pc: nat)
    requires SameBut(c, m, m')
    ensures m.pc == m'.pc && SameBut(c, m.(pc := pc), m'.(pc := pc)) && m.status == m'.status && m.trace == m'.trace
    ensures m.Valid()
  {
  }

  lemma RemainderSame(w: World, c: Cell, m: Machine, m': Machine, i: Instr, a: Word, b: Word)
    requires SameBut(c, m, m')
    ensures SameBut(c, WithRemainder(w, m, i, a, b), WithRemainder(w, m', i, a, b))
    ensures (i.op.DIV? || i.op.MOD?) && b != 0 && c == Slot(REMAINDER_SLOT) ==>
      WithRemainder(w, m, i, a, b) == WithRemainder(w, m', i, a, b)
  {
    hide TruncMod, Product;
    SlotsSame(c, m, m');
    var x, x' := WithRemainder(w, m, i, a, b), WithRemainder(w, m', i, a, b);
    SameButFrom(c, x, x');
    if (i.op.DIV? || i.op.MOD?) && b != 0 && c == Slot(REMAINDER_SLOT) {
      assert x.slots == x'.slots;
    }
  }

  lemma AluDivides(op: Opcode, a: Word, b: Word)
    requires IsMath(op) && Alu(op, a, b).Some?
    ensures op.DIV? || op.MOD? ==> b != 0
  {
  }

  lemma MathSame(w: World, c: Cell, m: Machine, m': Machine, i: Instr)
    requires SameBut(c, m, m') && IsMath(i.op) && !Uses(i, c)
    ensures StillSame(c, Overwrites(i, c), DoMath(w, m, i), DoMath(w, m', i))
  {
    hide SameBut, Read, Write, Is, Alu, WithRemainder;
    ReadSame(w, c, m, m', i.dst);
    ReadSame(w, c, m, m', i.src);
    StatusSame(c, m, m', Stuck);
    StatusSame(c, m, m', Trapped);
    var a, b := Read(w, m, i.dst), Read(w, m, i.src);
    if a.Some? && b.Some? {
      var r := Alu(i.op, a.value, b.value);
      if r.Some? {
        AluDivides(i.op, a.value, b.value);
        RemainderSame(w, c, m, m', i, a.value, b.value);
        WriteSame(c, WithRemainder(w, m, i, a.value, b.value), WithRemainder(w, m', i, a.value, b.value),
                  i.dst, r.value);
      }
    }
  }

  lemma UnarySame(w: World, c: Cell, m: Machine, m': Machine, i: Instr)
    requires SameBut(c, m, m') && (i.op.NEG? || i.op.NOT? || i.op.BOOL_NOT?) && !Uses(i, c)
    ensures StillSame(c, Overwrites(i, c), DoUnary(w, m, i), DoUnary(w, m', i))
  {
    hide SameBut, Read, Write, Is, UnaryResult;
    ReadSame(w, c, m, m', i.dst);
    StatusSame(c, m, m', Stuck);
    var a := Read(w, m, i.dst);
    if a.Some? {
      WriteSame(c, m, m', i.dst, UnaryResult(i.op, a.value));
    }
  }

  lemma CallSame(w: World, c: Cell, m: Machine, m': Machine, total: nat, callee: nat)
    requires SameBut(c, m, m') && (c.Slot? ==> c.index >= total)
    ensures StillSame(c, true, Call(w, m, total, callee), Call(w, m', total, callee))
  {
    SlotsSame(c, m, m');
    if total <= MAX_REGISTER_ARGUMENTS + |m.stack| {
      OutgoingSame(c, m, m', total);
    }
  }

  /** A register that carries no argument does not show in a call. */
  lemma OutgoingSame(c: Cell, m: Machine, m': Machine, total: nat)
    requires SameBut(c, m, m') && (c.Slot? ==> c.index >= total) && total <= MAX_REGISTER_ARGUMENTS + |m.stack|
    ensures m.stack == m'.stack && Outgoing(m, total) == Outgoing(m', total)
  {
    SlotsSame(c, m, m');
    if total <= MAX_REGISTER_ARGUMENTS {
      assert m.slots[..total] == m'.slots[..total];
    } else {
      assert m.slots == m'.slots;
    }
  }

  lemma PopSame(w: World, c: Cell, m: Machine, m': Machine, i: Instr)
    requires SameBut(c, m, m') && i.op.POP?
    ensures StillSame(c, Overwrites(i, c), Effect(w, m, i), Effect(w, m', i))
  {
    hide SameBut, Write, Is;
    StatusSame(c, m, m', Stuck);
    if m.stack == [] {
      StackSame(c, m, m', []);
    } else {
      StackSame(c, m, m', m.stack[..|m.stack| - 1]);
      WriteSame(c, m.(stack := m.stack[..|m.stack| - 1]), m'.(stack := m.stack[..|m.stack| - 1]),
                i.dst, m.stack[|m.stack| - 1]);
    }
  }

  lemma SetSame(w: World, c: Cell, m: Machine, m': Machine, i: Instr)
    requires SameBut(c, m, m') && IsSet(i.op)
    ensures StillSame(c, Overwrites(i, c), Effect(w, m, i), Effect(w, m', i))
  {
    hide SameBut, Write, Is, SetResult;
    ComparedSame(c, m, m', m.compared);
    WriteSame(c, m, m', i.dst, SetResult(i.op, m.compared));
  }

  lemma PushValueSame(w: World, c: Cell, m: Machine, m': Machine, o: Operand)
    requires SameBut(c, m, m') && !Is(o, c)
    ensures SameBut(c, PushValue(w, m, o), PushValue(w, m', o))
  {
    hide SameBut, Read, Is;
    StatusSame(c, m, m', Stuck);
    ReadSame(w, c, m, m', o);
    var v := Read(w, m, o);
    if v.Some? {
      StackSame(c, m, m', m.stack + [v.value]);
    }
  }

  lemma PushSame(w: World, c: Cell, m: Machine, m': Machine, i: Instr)
    requires SameBut(c, m, m') && (i.op.PUSH? || i.op.COMPARE?) && !Uses(i, c)
    ensures StillSame(c, Overwrites(i, c), Effect(w, m, i), Effect(w, m', i))
  {
    hide SameBut, Read, Is;
    StatusSame(c, m, m', Stuck);
    ReadSame(w, c, m, m', i.src);
    var b := Read(w, m, i.src);
    if b.Some? {
      if i.op.PUSH? {
        PushValueSame(w, c, m, m', i.src);
      } else {
        ReadSame(w, c, m, m', i.dst);
        var a := Read(w, m, i.dst);
        if a.Some? {
          ComparedSame(c, m, m', (a.value, b.value));
        }
      }
    } else if i.op.COMPARE? {
      ReadSame(w, c, m, m', i.dst);
    }
  }

  lemma EffectSame(w: World, c: Cell, m: Machine, m': Machine, i: Instr)
    requires SameBut(c, m, m') && !Uses(i, c)
    ensures StillSame(c, Overwrites(i, c), Effect(w, m, i), Effect(w, m', i))
  {
    hide SameBut, Is, Move, DoMath, DoUnary, Call, Write, Read, SetResult;
    StatusSame(c, m, m', Stuck);
    if IsMath(i.op) {
      MathSame(w, c, m, m', i);
    } else if IsSet(i.op) {
      SetSame(w, c, m, m', i);
    } else if i.op.PUSH? || i.op.COMPARE? {
      PushSame(w, c, m, m', i);
    } else if i.op.POP? {
      PopSame(w, c, m, m', i);
    } else if i.op.NEG? || i.op.NOT? || i.op.BOOL_NOT? {
      UnarySame(w, c, m, m', i);
    } else if i.op.LOAD? {
      MoveSame(w, c, m, m', i.dst, i.src);
    } else if i.op.STORE? {
      StoreSame(w, c, m, m', i);
    } else if i.op.CALL? {
      CallEffectSame(w, c, m, m', i);
    }
  }

  lemma StoreSame(w: World, c: Cell, m: Machine, m': Machine, i: Instr)
    requires SameBut(c, m, m') && i.op.STORE? && !Uses(i, c)
    ensures StillSame(c, Overwrites(i, c), Effect(w, m, i), Effect(w, m', i))
  {
    hide SameBut, Move, PushValue;
    MoveSame(w, c, m, m', i.dst, i.src);
    if OnStack(i.dst) {
      PushValueSame(w, c, m, m', i.src);
    }
  }

  lemma CallEffectSame(w: World, c: Cell, m: Machine, m': Machine, i: Instr)
    requires SameBut(c, m, m') && i.op.CALL? && !Uses(i, c)
    ensures StillSame(c, Overwrites(i, c), Effect(w, m, i), Effect(w, m', i))
  {
    hide SameBut, Call, Is;
    StatusSame(c, m, m', Stuck);
    if i.dst.Argument? && i.src.Function? {
      CallSame(w, c, m, m', i.dst.total, i.src.name);
    }
  }

  /** Where the machines are after an instruction that does not use the register: alike, or with the
      register still dead. */
  ghost predicate NextSame(prog: seq<Instr>, c: Cell, s: Machine, s': Machine) {
    s == s' || (SameBut(c, s, s') && (s.status.Running? ==> Dead(prog, s.pc, c)))
  }

  lemma ExecuteSame(prog: seq<Instr>, w: World, c: Cell, m: Machine, m': Machine, i: Instr)
    requires SameBut(c, m, m') && m.status.Running? && m.pc < |prog| && DeadPast(prog, m.pc, c)
    requires i.op == prog[m.pc].op && i.dst == prog[m.pc].dst && !Uses(i, c)
    ensures NextSame(prog, c, Execute(prog, w, m, i), Execute(prog, w, m', i))
  {
    hide SameBut, Is, Effect, Find, Read, Overwrites, Dead, DeadPast;
    PcSame(c, m, m', 0);
    StatusSame(c, m, m', Stuck);
    if IsControl(i.op) {
      ControlSame(prog, w, c, m, m', i);
    } else {
      EffectSame(w, c, m, m', i);
      EffectKeepsPc(w, m, i);
      DeadOnward(prog, m.pc, c);
      assert Overwrites(i, c) == Overwrites(prog[m.pc], c) by { OverwritesAlike(i, prog[m.pc], c); }
      PcSame(c, Effect(w, m, i), Effect(w, m', i), m.pc + 1);
    }
  }

  lemma OverwritesAlike(i: Instr, j: Instr, c: Cell)
    requires i.op == j.op && i.dst == j.dst
    ensures Overwrites(i, c) == Overwrites(j, c)
  {
  }

  lemma StepSame(prog: seq<Instr>, w: World, c: Cell, m: Machine, m': Machine)
    requires SameBut(c, m, m') && m.status.Running? && Dead(prog, m.pc, c)
    ensures NextSame(prog, c, Step(prog, w, m), Step(prog, w, m'))
  {
    hide SameBut, Uses, Execute, DeadPast, Dead;
    PcSame(c, m, m', 0);
    StatusSame(c, m, m', Stuck);
    if m.pc < |prog| {
      DeadHere(prog, m.pc, c);
      ExecuteSame(prog, w, c, m, m', prog[m.pc]);
    }
  }

  lemma ControlSame(prog: seq<Instr>, w: World, c: Cell, m: Machine, m': Machine, i: Instr)
    requires SameBut(c, m, m') && m.status.Running? && m.pc < |prog| && DeadPast(prog, m.pc, c)
    requires i.op == prog[m.pc].op && i.dst == prog[m.pc].dst && !Uses(i, c) && IsControl(i.op)
    ensures NextSame(prog, c, Execute(prog, w, m, i), Execute(prog, w, m', i))
  {
    hide SameBut, Is, Read, Dead, DeadPast, Effect, Goto;
    StatusSame(c, m, m', Stuck);
    if i.op.RETURN? {
      ReadSame(w, c, m, m', i.src);
      StatusSame(c, m, m', Returned(Read(w, m, i.src)));
      StatusSame(c, m, m', Returned(None));
    } else if i.op.JMP? || i.op.JMP_TRUE? || i.op.JMP_FALSE? {
      JumpSame(prog, w, c, m, m', i);
    } else {
      EndEffect(w, m, i);
      EndEffect(w, m', i);
    }
  }

  lemma JumpSame(prog: seq<Instr>, w: World, c: Cell, m: Machine, m': Machine, i: Instr)
    requires SameBut(c, m, m') && m.status.Running? && m.pc < |prog| && DeadPast(prog, m.pc, c)
    requires i.op == prog[m.pc].op && i.dst == prog[m.pc].dst && !Uses(i, c)
    requires i.op.JMP? || i.op.JMP_TRUE? || i.op.JMP_FALSE?
    ensures NextSame(prog, c, Execute(prog, w, m, i), Execute(prog, w, m', i))
  {
    hide SameBut, Is, Read, Dead, DeadPast, Effect;
    PcSame(c, m, m', m.pc + 1);
    StatusSame(c, m, m', Stuck);
    if i.dst.Label? {
      PcSame(c, m, m', Find(prog, i.dst.id));
    }
    if !i.op.JMP? {
      ReadSame(w, c, m, m', i.src);
    }
    DeadAfterJump(prog, m.pc, c);
  }

  lemma EndEffect(w: World, m: Machine, i: Instr)
    ensures i.op.END_FUNC? || i.op.EOF? ==> Effect(w, m, i) == m.(status := Stuck)
  {
    hide Read, Alu, SetResult, UnaryResult, Outgoing;
  }

  lemma EffectKeepsPc(w: World, m: Machine, i: Instr)
    ensures Effect(w, m, i).pc == m.pc
  {
    hide Read, Alu, SetResult, UnaryResult, Outgoing;
  }

  /** Runs from two machines that differ in a dead register: step by step they differ in that
      register only. */
  lemma {:induction false} DeadRuns(prog: seq<Instr>, w: World, c: Cell, m: Machine, m': Machine, n: nat)
    requires SameBut(c, m, m') && Dead(prog, m.pc, c)
    ensures SameBut(c, Run(prog, w, m, n), Run(prog, w, m', n))
    decreases n
  {
    hide SameBut, Step, Dead;
    if n > 0 {
      if m.status.Running? {
        StepSame(prog, w, c, m, m');
        var s, s' := Step(prog, w, m), Step(prog, w, m');
        PcSame(c, m, m', 0);
        if s == s' {
          RunValid(prog, w, m, n);
          SameButItself(c, Run(prog, w, m, n));
        } else if s.status.Running? {
          DeadRuns(prog, w, c, s, s', n - 1);
        } else {
          PcSame(c, s, s', 0);
          HaltedStays(prog, w, s, n - 1);
          HaltedStays(prog, w, s', n - 1);
        }
      } else {
        PcSame(c, m, m', 0);
        HaltedStays(prog, w, m, n);
        HaltedStays(prog, w, m', n);
      }
    }
  }

  lemma SameButItself(c: Cell, m: Machine)
    requires m.Valid()
    ensures SameBut(c, m, m)
  {
  }

  lemma EffectValid(w: World, m: Machine, i: Instr)
    requires m.Valid()
    ensures Effect(w, m, i).Valid()
  {
    hide Read, Alu, SetResult, UnaryResult, Outgoing;
  }

  lemma StepValid(prog: seq<Instr>, w: World, m: Machine)
    requires m.Valid()
    ensures Step(prog, w, m).Valid()
  {
    hide Effect, Read;
    if m.pc < |prog| {
      EffectValid(w, m, prog[m.pc]);
    }
  }

  lemma {:induction false} RunValid(prog: seq<Instr>, w: World, m: Machine, n: nat)
    requires m.Valid()
    ensures Run(prog, w, m, n).Valid()
    decreases n
  {
    hide Step;
    if n > 0 {
      StepValid(prog, w, m);
      RunValid(prog, w, Step(prog, w, m), n - 1);
    }
  }
}
