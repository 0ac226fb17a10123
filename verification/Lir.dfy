/** The low-level IR: instructions over two temporaries, an operand stack, locals, call arguments,
    labels and jumps, and a small-step machine that runs a flat program of them. */
module Lir {
  import opened Words
  import opened Environment

  datatype Opcode =
    | EOF | NOP | START_FUNC | END_FUNC | RETURN | LOAD | STORE
    | ADD | SUB | MUL | DIV | MOD | AND | OR | XOR | SHL | SHR
    | PUSH | POP | CALL
    | SETE | SETNE | SETLT | SETLTE | SETGT | SETGTE | COMPARE
    | NEW_LABEL | JMP | JMP_TRUE | JMP_FALSE | START_BLOCK | END_BLOCK
    | NEG | NOT | BOOL_NOT

  /** `Argument` carries the argument's index, the number of arguments of the call and the number
      of integer arguments before it, which alone decides between a register and the stack. */
  datatype Operand =
    | Nothing
    | Imm(n: Word)
    | Register(number: nat, temporary: bool)
    | Local(uid: nat)
    | Argument(index: nat, total: nat, intsPassed: nat, isCaller: bool)
    | Label(id: nat)
    | Function(name: nat)
    | EndBlockData(conditional: bool)

  datatype Instr = Instr(op: Opcode, dst: Operand, src: Operand)

  const MAX_REGISTER_ARGUMENTS: nat := 6

  // The second temporary is RCX, which is also the fourth integer argument register.
  const T2_SLOT: nat := 3

  // A division leaves its remainder in RDX, which is also the third integer argument register; an
  // unsigned multiplication by a register leaves the high half of the product there.
  const REMAINDER_SLOT: nat := 2

  const T1: Operand := Register(0, true)
  const T2: Operand := Register(1, true)
  const RESULT: Operand := Register(0, false)

  datatype Status = Running | Returned(value: Option<Word>) | Trapped | Stuck

  /** RAX is `t1`; `slots` are RDI, RSI, RDX, RCX, R8 and R9; `compared` stands for the flags. */
  datatype Machine = Machine(
    pc: nat,
    t1: Word,
    slots: seq<Word>,
    stack: seq<Word>,
    locals: map<nat, Word>,
    compared: (Word, Word),
    trace: seq<Event>,
    status: Status)
  {
    ghost predicate Valid() {
      |slots| == MAX_REGISTER_ARGUMENTS
    }
  }

  /** The value of an operand, where it has one. A missing operand is printed as 0. */
  function Read(w: World, m: Machine, o: Operand): Option<Word> {
    match o
    case Nothing => Some(0)
    case Imm(n) => Some(n)
    case Register(number, temporary) =>
      if number == 0 then Some(m.t1)
      else if number == 1 && temporary && |m.slots| == MAX_REGISTER_ARGUMENTS then Some(m.slots[T2_SLOT])
      else None
    case Local(uid) => Some(ReadLocal(w, m.locals, uid))
    case Argument(index, total, intsPassed, isCaller) =>
      if intsPassed < MAX_REGISTER_ARGUMENTS && |m.slots| == MAX_REGISTER_ARGUMENTS then Some(m.slots[intsPassed])
      else if !isCaller && MAX_REGISTER_ARGUMENTS <= index < MAX_REGISTER_ARGUMENTS + |w.incoming|
      then Some(w.incoming[index - MAX_REGISTER_ARGUMENTS])
      else None
    case Label(_) => None
    case Function(_) => None
    case EndBlockData(_) => None
  }

  /** An argument beyond the registers. Only a store puts one in place, by pushing it. */
  predicate OnStack(o: Operand) {
    o.Argument? && o.intsPassed >= MAX_REGISTER_ARGUMENTS
  }

  /** The machine after v is written to an operand. */
  function Write(m: Machine, o: Operand, v: Word): Machine {
    match o
    case Register(number, temporary) =>
      if number == 0 then m.(t1 := v)
      else if number == 1 && temporary && |m.slots| == MAX_REGISTER_ARGUMENTS then m.(slots := m.slots[T2_SLOT := v])
      else m.(status := Stuck)
    case Local(uid) => m.(locals := m.locals[uid := v])
    case Argument(index, total, intsPassed, isCaller) =>
      if isCaller && intsPassed < MAX_REGISTER_ARGUMENTS == |m.slots| then m.(slots := m.slots[intsPassed := v])
      else m.(status := Stuck)
    case _ => m.(status := Stuck)
  }

  predicate IsMath(op: Opcode) {
    op.ADD? || op.SUB? || op.MUL? || op.DIV? || op.MOD? || op.AND? || op.OR? || op.XOR? || op.SHL? || op.SHR?
  }

  predicate IsSet(op: Opcode) {
    op.SETE? || op.SETNE? || op.SETLT? || op.SETLTE? || op.SETGT? || op.SETGTE?
  }

  /** What an arithmetic instruction computes; None when the processor faults. */
  function Alu(op: Opcode, a: Word, b: Word): Option<Word>
    requires IsMath(op)
  {
    match op
    case ADD => Some(Wrap(a + b))
    case SUB => Some(Wrap(a - b))
    case MUL => Some(Wrap(a * b))
    case DIV => if DivFaults(a, b) then None else Some(Wrap(TruncDiv(a, b)))
    case MOD => if DivFaults(a, b) then None else Some(Wrap(TruncMod(a, b)))
    case AND => Some(BitwiseWord(BitAnd, a, b))
    case OR => Some(BitwiseWord(BitOr, a, b))
    case XOR => Some(BitwiseWord(BitXor, a, b))
    case SHL => Some(ShiftLeft(a, b))
    case SHR => Some(ShiftRight(a, b))
  }

  function SetResult(op: Opcode, c: (Word, Word)): Word
    requires IsSet(op)
  {
    match op
    case SETE => FromBool(c.0 == c.1)
    case SETNE => FromBool(c.0 != c.1)
    case SETLT => FromBool(c.0 < c.1)
    case SETLTE => FromBool(c.0 <= c.1)
    case SETGT => FromBool(c.0 > c.1)
    case SETGTE => FromBool(c.0 >= c.1)
  }

  /** The index of the first definition of a label, or |prog|. */
  function Find(prog: seq<Instr>, id: nat): (p: nat)
    ensures p <= |prog|
    ensures p < |prog| ==> prog[p].op.NEW_LABEL? && prog[p].src == Label(id)
    ensures forall i :: 0 <= i < p ==> !(prog[i].op.NEW_LABEL? && prog[i].src == Label(id))
  {
    if prog == [] then 0
    else if prog[0].op.NEW_LABEL? && prog[0].src == Label(id) then 0
    else 1 + Find(prog[1..], id)
  }

  function Goto(prog: seq<Instr>, m: Machine, target: Operand): Machine {
    if target.Label? && Find(prog, target.id) < |prog|
    then m.(pc := Find(prog, target.id))
    else m.(status := Stuck)
  }

  /** The arguments a call sees: registers first, then the stack from its top down. */
  function Outgoing(m: Machine, total: nat): seq<Word>
    requires m.Valid()
    requires total <= MAX_REGISTER_ARGUMENTS + |m.stack|
  {
    if total <= MAX_REGISTER_ARGUMENTS then m.slots[..total]
    else m.slots + seq(total - MAX_REGISTER_ARGUMENTS, i requires 0 <= i < |m.stack| => m.stack[|m.stack| - 1 - i])
  }

  function Call(w: World, m: Machine, total: nat, callee: nat): Machine {
    if |m.slots| != MAX_REGISTER_ARGUMENTS || total > MAX_REGISTER_ARGUMENTS + |m.stack| then m.(status := Stuck)
    else
      var trace := m.trace + [Event(callee, Outgoing(m, total))];
      var onStack := if total <= MAX_REGISTER_ARGUMENTS then 0 else total - MAX_REGISTER_ARGUMENTS;
      m.(t1 := w.result(trace),
         slots := seq(MAX_REGISTER_ARGUMENTS, i requires 0 <= i => w.clobber(trace, i)),
         compared := (w.clobber(trace, MAX_REGISTER_ARGUMENTS), w.clobber(trace, MAX_REGISTER_ARGUMENTS + 1)),
         stack := m.stack[..|m.stack| - onStack],
         trace := trace)
  }

  /** The effect of an instruction that does not transfer control, apart from the step of pc. */
  function Effect(w: World, m: Machine, i: Instr): Machine {
    match i.op
    case LOAD => Move(w, m, i.dst, i.src)
    case STORE =>
      if i.src.Nothing? && i.dst.Local? then m
      else if OnStack(i.dst) && i.dst.isCaller then PushValue(w, m, i.src)
      else Move(w, m, i.dst, i.src)
    case ADD => DoMath(w, m, i)
    case SUB => DoMath(w, m, i)
    case MUL => DoMath(w, m, i)
    case DIV => DoMath(w, m, i)
    case MOD => DoMath(w, m, i)
    case AND => DoMath(w, m, i)
    case OR => DoMath(w, m, i)
    case XOR => DoMath(w, m, i)
    case SHL => DoMath(w, m, i)
    case SHR => DoMath(w, m, i)
    case PUSH => PushValue(w, m, i.src)
    case POP =>
      if m.stack == [] then m.(status := Stuck)
      else Write(m.(stack := m.stack[..|m.stack| - 1]), i.dst, m.stack[|m.stack| - 1])
    case COMPARE =>
      var a, b := Read(w, m, i.dst), Read(w, m, i.src);
      if a.None? || b.None? then m.(status := Stuck) else m.(compared := (a.value, b.value))
    case SETE => Write(m, i.dst, SetResult(i.op, m.compared))
    case SETNE => Write(m, i.dst, SetResult(i.op, m.compared))
    case SETLT => Write(m, i.dst, SetResult(i.op, m.compared))
    case SETLTE => Write(m, i.dst, SetResult(i.op, m.compared))
    case SETGT => Write(m, i.dst, SetResult(i.op, m.compared))
    case SETGTE => Write(m, i.dst, SetResult(i.op, m.compared))
    case NEG => DoUnary(w, m, i)
    case NOT => DoUnary(w, m, i)
    case BOOL_NOT => DoUnary(w, m, i)
    case CALL =>
      if i.dst.Argument? && i.src.Function? then Call(w, m, i.dst.total, i.src.name) else m.(status := Stuck)
    case NOP => m
    case START_FUNC => m
    case START_BLOCK => m
    case END_BLOCK => m
    case NEW_LABEL => m
    case _ => m.(status := Stuck)
  }

  function Move(w: World, m: Machine, dst: Operand, src: Operand): Machine {
    var v := Read(w, m, src);
    if v.None? then m.(status := Stuck) else Write(m, dst, v.value)
  }

  function PushValue(w: World, m: Machine, o: Operand): Machine {
    var v := Read(w, m, o);
    if v.None? then m.(status := Stuck) else m.(stack := m.stack + [v.value])
  }

  function DoMath(w: World, m: Machine, i: Instr): Machine
    requires IsMath(i.op)
  {
    var a, b := Read(w, m, i.dst), Read(w, m, i.src);
    if a.None? || b.None? then m.(status := Stuck)
    else
      var r := Alu(i.op, a.value, b.value);
      if r.None? then m.(status := Trapped) else Write(WithRemainder(w, m, i, a.value, b.value), i.dst, r.value)
  }

  /** May the instruction leave something in the register of remainders? A multiplication by a constant
      is always the signed one with two operands, which does not. */
  predicate SpoilsRemainder(i: Instr) {
    i.op.DIV? || i.op.MOD? || (i.op.MUL? && !i.src.Imm?)
  }

  /** The product of the unsigned readings, which decides both halves. */
  function Product(a: Word, b: Word): nat {
    Bits(a) * Bits(b)
  }

  /** What a division or a multiplication does besides giving its result. */
  function WithRemainder(w: World, m: Machine, i: Instr, a: Word, b: Word): Machine {
    if |m.slots| != MAX_REGISTER_ARGUMENTS || !SpoilsRemainder(i) then m
    else if i.op.MUL? then
      m.(slots := m.slots[REMAINDER_SLOT := w.product(m.pc, Product(a, b), m.slots[REMAINDER_SLOT])])
    else if b != 0 then m.(slots := m.slots[REMAINDER_SLOT := Wrap(TruncMod(a, b))])
    else m
  }

  function UnaryResult(op: Opcode, a: Word): Word {
    match op
    case NEG => Wrap(0 - a)
    case NOT => -1 - a
    case _ => FromBool(a == 0)
  }

  function DoUnary(w: World, m: Machine, i: Instr): Machine {
    var a := Read(w, m, i.dst);
    if a.None? then m.(status := Stuck) else Write(m, i.dst, UnaryResult(i.op, a.value))
  }

  predicate IsControl(op: Opcode) {
    op.JMP? || op.JMP_TRUE? || op.JMP_FALSE? || op.RETURN? || op.END_FUNC? || op.EOF?
  }

  /** The effect of an instruction at the machine's position. */
  function Execute(prog: seq<Instr>, w: World, m: Machine, i: Instr): Machine {
    match i.op
    case JMP => Goto(prog, m, i.dst)
    case JMP_TRUE =>
      var c := Read(w, m, i.src);
      if c.None? then m.(status := Stuck)
      else if c.value != 0 then Goto(prog, m, i.dst) else m.(pc := m.pc + 1)
    case JMP_FALSE =>
      var c := Read(w, m, i.src);
      if c.None? then m.(status := Stuck)
      else if c.value == 0 then Goto(prog, m, i.dst) else m.(pc := m.pc + 1)
    case RETURN =>
      var v := Read(w, m, i.src);
      if i.src.Nothing? then m.(status := Returned(None))
      else if v.None? then m.(status := Stuck)
      else m.(status := Returned(v))
    case _ =>
      var r := Effect(w, m, i);
      if r.status.Running? then r.(pc := m.pc + 1) else r
  }

  /** One step. A machine that is not running stays as it is. */
  function Step(prog: seq<Instr>, w: World, m: Machine): Machine {
    if !m.status.Running? then m
    else if m.pc >= |prog| then m.(status := Stuck)
    else Execute(prog, w, m, prog[m.pc])
  }

  /** k steps. */
  function Run(prog: seq<Instr>, w: World, m: Machine, k: nat): Machine
    decreases k
  {
    if k == 0 then m else Run(prog, w, Step(prog, w, m), k - 1)
  }

  lemma {:induction false} RunSplit(prog: seq<Instr>, w: World, m: Machine, a: nat, b: nat)
    ensures Run(prog, w, m, a + b) == Run(prog, w, Run(prog, w, m, a), b)
    decreases a
  {
    hide Step;
    if a > 0 {
      RunSplit(prog, w, Step(prog, w, m), a - 1, b);
    }
  }

  lemma {:induction false} HaltedStays(prog: seq<Instr>, w: World, m: Machine, k: nat)
    requires !m.status.Running?
    ensures Run(prog, w, m, k) == m
    decreases k
  {
    if k > 0 {
      HaltedStays(prog, w, m, k - 1);
    }
  }
}
