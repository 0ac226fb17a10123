/** The code of struct initialisers: for every member its address is built in the first temporary, kept
    on the operand stack while a complex value is computed, and the value is stored through it. */
module StructInitializers {
  import opened Words
  import opened Environment
  import opened Lir
  import opened Lowering
  import opened Runs
  import opened Fragments
  import opened ExprSim
  import opened Regions
  import opened StructLayout
  import opened WordAlgebra
  import L = Liveness
  import Labels
  import H = Hir

  // ----- A machine with memory -----

  /** An instruction of the machine without memory, the address of a local, or a store of the lowest
      bytes of a value to the address in a register. */
  datatype MemoryInstr =
    | Plain(instr: Instr)
    | Reference(dst: Operand, uid: nat)
    | StoreThrough(pointer: Operand, src: Operand, size: nat)

  datatype MemoryMachine = MemoryMachine(cpu: Machine, memory: map<int, Byte>)

  /** The program without its memory accesses; labels keep their places. */
  function Shadow(prog: seq<MemoryInstr>): (s: seq<Instr>)
    ensures |s| == |prog|
  {
    seq(|prog|, i requires 0 <= i < |prog| => if prog[i].Plain? then prog[i].instr else Instr(NOP, Nothing, Nothing))
  }

  function BytesOf(x: nat, size: nat): (bs: seq<Byte>)
    ensures |bs| == size
    decreases size
  {
    if size == 0 then [] else [x % 256] + BytesOf(x / 256, size - 1)
  }

  /** The lowest bytes of a word, the lowest first. */
  function WordBytes(v: Word, size: nat): (bs: seq<Byte>)
    ensures |bs| == size
  {
    BytesOf(Bits(v), size)
  }

  function Advance(m: Machine): Machine {
    if m.status.Running? then m.(pc := m.pc + 1) else m
  }

  /** One step; `frame` gives the addresses of locals. */
  function MemoryStep(prog: seq<MemoryInstr>, w: World, frame: nat -> Word, m: MemoryMachine): MemoryMachine {
    if !m.cpu.status.Running? then m
    else if m.cpu.pc >= |prog| then m.(cpu := m.cpu.(status := Stuck))
    else match prog[m.cpu.pc]
      case Plain(_) => m.(cpu := Step(Shadow(prog), w, m.cpu))
      case Reference(dst, uid) => m.(cpu := Advance(Lir.Write(m.cpu, dst, frame(uid))))
      case StoreThrough(pointer, src, size) =>
        var at, v := Read(w, m.cpu, pointer), Read(w, m.cpu, src);
        if at.None? || v.None? then m.(cpu := m.cpu.(status := Stuck))
        else MemoryMachine(Advance(m.cpu), StructLayout.Write(m.memory, at.value, WordBytes(v.value, size)))
  }

  function MemoryRun(prog: seq<MemoryInstr>, w: World, frame: nat -> Word, m: MemoryMachine, k: nat): MemoryMachine
    decreases k
  {
    if k == 0 then m else MemoryRun(prog, w, frame, MemoryStep(prog, w, frame, m), k - 1)
  }

  lemma {:induction false} MemoryRunSplit(prog: seq<MemoryInstr>, w: World, frame: nat -> Word, m: MemoryMachine,
                                          a: nat, b: nat)
    ensures MemoryRun(prog, w, frame, m, a + b)
      == MemoryRun(prog, w, frame, MemoryRun(prog, w, frame, m, a), b)
    decreases a
  {
    hide MemoryStep;
    if a > 0 {
      MemoryRunSplit(prog, w, frame, MemoryStep(prog, w, frame, m), a - 1, b);
    }
  }

  // ----- Where code lies -----

  ghost predicate Lies(prog: seq<MemoryInstr>, p: nat, code: seq<MemoryInstr>) {
    p + |code| <= |prog| && prog[p..p + |code|] == code
  }

  lemma LiesSplit(prog: seq<MemoryInstr>, p: nat, a: seq<MemoryInstr>, b: seq<MemoryInstr>)
    requires Lies(prog, p, a + b)
    ensures Lies(prog, p, a) && Lies(prog, p + |a|, b)
  {
    var c := prog[p..p + |a + b|];
    assert prog[p..p + |a|] == c[..|a|] == a;
    assert prog[p + |a|..p + |a| + |b|] == c[|a|..] == b;
  }

  lemma LiesAt(prog: seq<MemoryInstr>, p: nat, code: seq<MemoryInstr>, i: nat)
    requires Lies(prog, p, code) && i < |code|
    ensures p + i < |prog| && prog[p + i] == code[i] && Shadow(prog)[p + i] == Shadow(code)[i]
  {
    assert prog[p..p + |code|][i] == prog[p + i];
  }

  function PlainCode(code: seq<Instr>): (r: seq<MemoryInstr>)
    ensures |r| == |code|
  {
    seq(|code|, i requires 0 <= i < |code| => Plain(code[i]))
  }

  lemma PlainLies(prog: seq<MemoryInstr>, p: nat, code: seq<Instr>)
    requires Lies(prog, p, PlainCode(code))
    ensures At(Shadow(prog), p, code)
  {
    forall i | 0 <= i < |code|
      ensures Shadow(prog)[p..p + |code|][i] == code[i]
    {
      LiesAt(prog, p, PlainCode(code), i);
    }
  }

  /** Code of the machine without memory runs as it does there, and leaves the memory alone. */
  lemma {:induction false} RunPlainCode(prog: seq<MemoryInstr>, w: World, frame: nat -> Word, m: MemoryMachine,
                                        p: nat, code: seq<Instr>, k: nat)
    requires Lies(prog, p, PlainCode(code)) && Contained(Shadow(prog), p, code) && p + |code| <= |prog|
    requires m.cpu.status.Running? ==> p <= m.cpu.pc <= p + |code|
    requires !Run(Cut(Shadow(prog), p, code), w, m.cpu, k).status.Stuck?
    ensures MemoryRun(prog, w, frame, m, k) == m.(cpu := Run(Cut(Shadow(prog), p, code), w, m.cpu, k))
    decreases k
  {
    hide Step, Contained, Cut, Shadow;
    if k > 0 {
      if m.cpu.status.Running? {
        if m.cpu.pc == p + |code| {
          CutEnds(Shadow(prog), p, code, w, m.cpu, k);
        }
        StepInside(Shadow(prog), p, code, w, m.cpu);
        LiesAt(prog, p, PlainCode(code), m.cpu.pc - p);
      } else {
        HaltedStep(Cut(Shadow(prog), p, code), w, m.cpu);
      }
      RunPlainCode(prog, w, frame, MemoryStep(prog, w, frame, m), p, code, k - 1);
    }
  }

  // ----- The emitted code -----

  /** The address of a member in the first temporary. */
  function AddressCode(uid: nat, offset: nat): seq<MemoryInstr> {
    [Reference(T1, uid), Plain(Load(T2, Imm(Wrap(offset)))), Plain(Instr(ADD, T1, T2)), Plain(Load(T1, T1))]
  }

  datatype MemoryPiece = MemoryPiece(code: seq<MemoryInstr>, next: nat)

  /** The assignment of one member. A value that is not complex is loaded into the second temporary
      beside the address; a complex one is computed while the address waits on the stack. */
  function LowerMember(uid: nat, offset: nat, size: nat, e: H.Expr, n: nat): MemoryPiece {
    var x := LowerExpr(e, n);
    MemoryPiece(
      AddressCode(uid, offset) +
      if H.IsComplex(e) then
        [Plain(Push(T1))] + (PlainCode(x.code)
          + [Plain(Load(T1, x.operand)), Plain(Pop(T2)), StoreThrough(T2, T1, size)])
      else
        PlainCode(x.code) + [Plain(Load(T2, x.operand)), StoreThrough(T1, T2, size)],
      x.next)
  }

  /** A member of an initialiser and the expression for its value. */
  datatype MemberValue = MemberValue(index: nat, value: H.Expr)

  predicate MembersExist(ms: seq<Member>, inits: seq<MemberValue>) {
    forall k :: 0 <= k < |inits| ==> inits[k].index < |ms|
  }

  /** The members in the order they are written. */
  function LowerMembers(ms: seq<Member>, packed: bool, uid: nat, inits: seq<MemberValue>, n: nat): MemoryPiece
    requires MembersExist(ms, inits)
    decreases |inits|
  {
    if inits == [] then MemoryPiece([], n)
    else
      var last := inits[|inits| - 1];
      var before := LowerMembers(ms, packed, uid, inits[..|inits| - 1], n);
      var x := LowerMember(uid, Offset(ms, packed, last.index), MemberSize(ms[last.index]), last.value, before.next);
      MemoryPiece(before.code + x.code, x.next)
  }

  // ----- One member -----

  ghost predicate ReadyAt(prog: seq<MemoryInstr>, m: MemoryMachine, code: seq<MemoryInstr>) {
    && UniqueLabels(Shadow(prog)) && Lies(prog, m.cpu.pc, code) && m.cpu.status.Running? && m.cpu.Valid()
  }

  lemma PlainStep(prog: seq<MemoryInstr>, w: World, frame: nat -> Word, m: MemoryMachine, i: Instr)
    requires m.cpu.status.Running? && m.cpu.pc < |prog| && prog[m.cpu.pc] == Plain(i) && !IsControl(i.op)
    ensures MemoryStep(prog, w, frame, m) == m.(cpu := Advance(Effect(w, m.cpu, i)))
  {
    hide Effect, Read;
    L.EffectKeepsPc(w, m.cpu, i);
    assert Shadow(prog)[m.cpu.pc] == i;
  }

  lemma AddressEffects(w: World, m: Machine, offset: Word)
    requires m.Valid() && m.status.Running?
    ensures Effect(w, m, Load(T2, Imm(offset))) == m.(slots := m.slots[T2_SLOT := offset])
    ensures Effect(w, m, Instr(ADD, T1, T2)) == m.(t1 := Wrap(m.t1 + m.slots[T2_SLOT]))
    ensures Effect(w, m, Load(T1, T1)) == m
    ensures Effect(w, m, Push(T1)) == m.(stack := m.stack + [m.t1])
  {
  }

  /** After the address code the first temporary holds the member's address. */
  lemma RunAddress(prog: seq<MemoryInstr>, w: World, frame: nat -> Word, m: MemoryMachine, uid: nat, offset: nat)
    requires ReadyAt(prog, m, AddressCode(uid, offset))
    requires -TWO63 <= frame(uid) + offset < TWO63 && offset < TWO63
    ensures MemoryRun(prog, w, frame, m, 4) == m.(cpu := m.cpu.(pc := m.cpu.pc + 4, t1 := frame(uid) + offset,
                                                                 slots := m.cpu.slots[T2_SLOT := offset]))
  {
    hide Effect, Shadow, MemoryRun, UniqueLabels, MemoryStep, Lies;
    var p := m.cpu.pc;
    AddressLies(prog, p, uid, offset);
    FourSteps(prog, w, frame, m);
    ReferenceStep(prog, w, frame, m, uid);
    var c1 := m.cpu.(pc := p + 1, t1 := frame(uid));
    var c2 := c1.(pc := p + 2, slots := m.cpu.slots[T2_SLOT := offset]);
    var c3 := c2.(pc := p + 3, t1 := frame(uid) + offset);
    AddressEffects(w, c1, offset);
    AddressEffects(w, c2, offset);
    AddressEffects(w, c3, offset);
    PlainStep(prog, w, frame, m.(cpu := c1), Load(T2, Imm(offset)));
    PlainStep(prog, w, frame, m.(cpu := c2), Instr(ADD, T1, T2));
    PlainStep(prog, w, frame, m.(cpu := c3), Load(T1, T1));
  }

  lemma AddressLies(prog: seq<MemoryInstr>, p: nat, uid: nat, offset: nat)
    requires Lies(prog, p, AddressCode(uid, offset)) && offset < TWO63
    ensures p + 4 <= |prog| && prog[p] == Reference(T1, uid) && prog[p + 1] == Plain(Load(T2, Imm(offset)))
    ensures prog[p + 2] == Plain(Instr(ADD, T1, T2)) && prog[p + 3] == Plain(Load(T1, T1))
  {
    hide Shadow, Lies;
    var code := AddressCode(uid, offset);
    LiesAt(prog, p, code, 0);
    LiesAt(prog, p, code, 1);
    LiesAt(prog, p, code, 2);
    LiesAt(prog, p, code, 3);
  }

  lemma ReferenceStep(prog: seq<MemoryInstr>, w: World, frame: nat -> Word, m: MemoryMachine, uid: nat)
    requires m.cpu.status.Running? && m.cpu.pc < |prog| && prog[m.cpu.pc] == Reference(T1, uid)
    ensures MemoryStep(prog, w, frame, m) == m.(cpu := m.cpu.(pc := m.cpu.pc + 1, t1 := frame(uid)))
  {
  }

  lemma FourSteps(prog: seq<MemoryInstr>, w: World, frame: nat -> Word, m: MemoryMachine)
    ensures var s1 := MemoryStep(prog, w, frame, m);
      var s2 := MemoryStep(prog, w, frame, s1);
      var s3 := MemoryStep(prog, w, frame, s2);
      MemoryRun(prog, w, frame, m, 4) == MemoryStep(prog, w, frame, s3)
  {
    hide MemoryStep;
    var s1 := MemoryStep(prog, w, frame, m);
    var s2 := MemoryStep(prog, w, frame, s1);
    var s3 := MemoryStep(prog, w, frame, s2);
    assert MemoryRun(prog, w, frame, m, 4) == MemoryRun(prog, w, frame, s1, 3);
    assert MemoryRun(prog, w, frame, s1, 3) == MemoryRun(prog, w, frame, s2, 2);
    assert MemoryRun(prog, w, frame, s2, 2) == MemoryRun(prog, w, frame, s3, 1);
    assert MemoryRun(prog, w, frame, s3, 1) == MemoryRun(prog, w, frame, MemoryStep(prog, w, frame, s3), 0);
  }

  /** The value of an expression, computed with the memory untouched. */
  lemma RunValue(prog: seq<MemoryInstr>, w: World, frame: nat -> Word, m: MemoryMachine, e: H.Expr, n: nat)
    returns (k: nat)
    requires H.ExprOk(e) && ReadyAt(prog, m, PlainCode(LowerExpr(e, n).code))
    ensures var x := LowerExpr(e, n);
      var m' := MemoryRun(prog, w, frame, m, k);
      m'.memory == m.memory
      && Evaluated(w, m.cpu, m'.cpu, m.cpu.pc + |x.code|, x.operand, H.Eval(w, m.cpu.locals, m.cpu.trace, e))
  {
    hide Step, Run, Inside, At, UniqueLabels, H.ExprOk, LowerExpr, Slots, H.Eval, Contained, Cut, Read, Shadow,
      MemoryRun, Lies;
    var x := LowerExpr(e, n);
    var p, c := m.cpu.pc, m.cpu;
    PlainLies(prog, p, x.code);
    ExprContained(Shadow(prog), p, e, n);
    CutKeeps(Shadow(prog), p, x.code);
    k := SimExpr(Cut(Shadow(prog), p, x.code), w, c, e, n, |c.stack|, |c.stack| + Slots(e));
    RunPlainCode(prog, w, frame, m, p, x.code, k);
  }

  /** A member has been assigned, or its value faulted before anything was stored. */
  ghost predicate Assigned(m: MemoryMachine, m': MemoryMachine, p: nat, at: int, size: nat, r: H.Value) {
    if r.Fault? then FaultedFrom(m.cpu, m'.cpu, r.trace) && m'.memory == m.memory
    else
      && Reached(m.cpu, m'.cpu, p, m.cpu.stack, r.trace)
      && m'.memory == StructLayout.Write(m.memory, at, WordBytes(r.v, size))
  }

  /** Values that take no code, or wait for their address on the stack. */
  predicate MemberOk(e: H.Expr) {
    H.ExprOk(e) && (H.IsComplex(e) || e.Literal? || e.Variable?)
  }

  lemma LastEffects(w: World, m: Machine, o: Operand, v: Word, rest: seq<Word>, at: Word)
    requires m.Valid() && m.status.Running? && Read(w, m, o) == Some(v) && m.stack == rest + [at]
    ensures Effect(w, m, Load(T1, o)) == m.(t1 := v)
    ensures Effect(w, m.(t1 := v, pc := m.pc + 1), Pop(T2))
      == m.(t1 := v, pc := m.pc + 1, slots := m.slots[T2_SLOT := at], stack := rest)
  {
    hide Read;
    assert m.stack[..|m.stack| - 1] == rest;
  }

  /** The store of the first temporary where the second one points. */
  lemma StoreStep(prog: seq<MemoryInstr>, w: World, frame: nat -> Word, m: MemoryMachine, size: nat)
    requires m.cpu.Valid() && m.cpu.status.Running? && m.cpu.pc < |prog|
    requires prog[m.cpu.pc] == StoreThrough(T2, T1, size)
    ensures MemoryStep(prog, w, frame, m)
      == MemoryMachine(Advance(m.cpu), StructLayout.Write(m.memory, m.cpu.slots[T2_SLOT], WordBytes(m.cpu.t1, size)))
  {
    hide Step, Shadow, WordBytes, StructLayout.Write;
  }

  /** Load the value, take the address back, store. */
  lemma RunStoreComplexValue(prog: seq<MemoryInstr>, w: World, frame: nat -> Word, m: MemoryMachine, o: Operand,
                             v: Word, rest: seq<Word>, at: Word, size: nat)
    requires ReadyAt(prog, m, [Plain(Load(T1, o)), Plain(Pop(T2)), StoreThrough(T2, T1, size)])
    requires Read(w, m.cpu, o) == Some(v) && m.cpu.stack == rest + [at]
    ensures var m' := MemoryRun(prog, w, frame, m, 3);
      && Reached(m.cpu, m'.cpu, m.cpu.pc + 3, rest, m.cpu.trace)
      && m'.memory == StructLayout.Write(m.memory, at, WordBytes(v, size))
  {
    hide Effect, Shadow, MemoryRun, MemoryStep, Lies, Read, UniqueLabels, WordBytes, StructLayout.Write;
    var code := [Plain(Load(T1, o)), Plain(Pop(T2)), StoreThrough(T2, T1, size)];
    var p := m.cpu.pc;
    LiesAt(prog, p, code, 0);
    LiesAt(prog, p, code, 1);
    LiesAt(prog, p, code, 2);
    ThreeSteps(prog, w, frame, m);
    LastEffects(w, m.cpu, o, v, rest, at);
    PlainStep(prog, w, frame, m, Load(T1, o));
    var m1 := m.(cpu := m.cpu.(t1 := v, pc := p + 1));
    PlainStep(prog, w, frame, m1, Pop(T2));
    StoreStep(prog, w, frame, m1.(cpu := m1.cpu.(pc := p + 2, slots := m1.cpu.slots[T2_SLOT := at], stack := rest)),
              size);
  }

  lemma ThreeSteps(prog: seq<MemoryInstr>, w: World, frame: nat -> Word, m: MemoryMachine)
    ensures var s1 := MemoryStep(prog, w, frame, m);
      var s2 := MemoryStep(prog, w, frame, s1);
      MemoryRun(prog, w, frame, m, 3) == MemoryStep(prog, w, frame, s2)
    ensures MemoryRun(prog, w, frame, m, 2) == MemoryStep(prog, w, frame, MemoryStep(prog, w, frame, m))
    ensures MemoryRun(prog, w, frame, m, 1) == MemoryStep(prog, w, frame, m)
  {
    hide MemoryStep;
    var s1 := MemoryStep(prog, w, frame, m);
    var s2 := MemoryStep(prog, w, frame, s1);
    assert MemoryRun(prog, w, frame, m, 3) == MemoryRun(prog, w, frame, s1, 2);
    assert MemoryRun(prog, w, frame, s1, 2) == MemoryRun(prog, w, frame, s2, 1);
    assert MemoryRun(prog, w, frame, s2, 1) == MemoryRun(prog, w, frame, MemoryStep(prog, w, frame, s2), 0);
    assert MemoryRun(prog, w, frame, m, 2) == MemoryRun(prog, w, frame, s1, 1);
    assert MemoryRun(prog, w, frame, s1, 1) == MemoryRun(prog, w, frame, s2, 0);
    assert MemoryRun(prog, w, frame, m, 1) == MemoryRun(prog, w, frame, s1, 0);
  }

  /** Load the value beside the address, store. */
  lemma RunStorePlainValue(prog: seq<MemoryInstr>, w: World, frame: nat -> Word, m: MemoryMachine, o: Operand,
                           v: Word, size: nat)
    requires ReadyAt(prog, m, [Plain(Load(T2, o)), StoreThrough(T1, T2, size)]) && Read(w, m.cpu, o) == Some(v)
    ensures var m' := MemoryRun(prog, w, frame, m, 2);
      && Reached(m.cpu, m'.cpu, m.cpu.pc + 2, m.cpu.stack, m.cpu.trace)
      && m'.memory == StructLayout.Write(m.memory, m.cpu.t1, WordBytes(v, size))
  {
    hide Effect, Shadow, MemoryRun, UniqueLabels, WordBytes, StructLayout.Write;
    var code := [Plain(Load(T2, o)), StoreThrough(T1, T2, size)];
    var p := m.cpu.pc;
    LiesAt(prog, p, code, 0);
    LiesAt(prog, p, code, 1);
    ThreeSteps(prog, w, frame, m);
    BesideEffect(w, m.cpu, o, v);
    PlainStep(prog, w, frame, m, Load(T2, o));
  }

  lemma BesideEffect(w: World, m: Machine, o: Operand, v: Word)
    requires m.Valid() && m.status.Running? && Read(w, m, o) == Some(v)
    ensures Effect(w, m, Load(T2, o)) == m.(slots := m.slots[T2_SLOT := v])
  {
    hide Read;
  }

  /** The code of a member after its address is built. */
  function ValueCode(size: nat, e: H.Expr, n: nat): seq<MemoryInstr> {
    var x := LowerExpr(e, n);
    if H.IsComplex(e) then
      [Plain(Push(T1))] + (PlainCode(x.code)
        + [Plain(Load(T1, x.operand)), Plain(Pop(T2)), StoreThrough(T2, T1, size)])
    else
      PlainCode(x.code) + [Plain(Load(T2, x.operand)), StoreThrough(T1, T2, size)]
  }

  /** From the address on, for a complex value. */
  lemma RunComplexValue(prog: seq<MemoryInstr>, w: World, frame: nat -> Word, m: MemoryMachine, size: nat,
                        e: H.Expr, n: nat)
    returns (k: nat)
    requires H.ExprOk(e) && H.IsComplex(e) && ReadyAt(prog, m, ValueCode(size, e, n))
    ensures Assigned(m, MemoryRun(prog, w, frame, m, k), m.cpu.pc + |ValueCode(size, e, n)|, m.cpu.t1, size,
                     H.Eval(w, m.cpu.locals, m.cpu.trace, e))
  {
    hide Effect, Shadow, MemoryRun, UniqueLabels, WordBytes, StructLayout.Write, H.Eval, H.ExprOk, H.IsComplex,
      LowerExpr, PlainCode, Lies, Read, MemoryStep;
    var x := LowerExpr(e, n);
    var p, c := m.cpu.pc, m.cpu;
    var store := [Plain(Load(T1, x.operand)), Plain(Pop(T2)), StoreThrough(T2, T1, size)];
    LiesSplit(prog, p, [Plain(Push(T1))], PlainCode(x.code) + store);
    LiesSplit(prog, p + 1, PlainCode(x.code), store);
    LiesAt(prog, p, [Plain(Push(T1))], 0);
    AddressEffects(w, c, 0);
    PlainStep(prog, w, frame, m, Push(T1));
    ThreeSteps(prog, w, frame, m);
    var m1 := m.(cpu := c.(pc := p + 1, stack := c.stack + [c.t1]));
    var j := RunValue(prog, w, frame, m1, e, n);
    MemoryRunSplit(prog, w, frame, m, 1, j);
    k := 1 + j;
    var r := H.Eval(w, c.locals, c.trace, e);
    if r.Val? {
      var m2 := MemoryRun(prog, w, frame, m, k);
      RunStoreComplexValue(prog, w, frame, m2, x.operand, r.v, c.stack, c.t1, size);
      MemoryRunSplit(prog, w, frame, m, k, 3);
      k := k + 3;
    }
  }

  /** From the address on, for a value that takes no code. */
  lemma RunEasyValue(prog: seq<MemoryInstr>, w: World, frame: nat -> Word, m: MemoryMachine, size: nat,
                     e: H.Expr, n: nat)
    requires (e.Literal? || e.Variable?) && ReadyAt(prog, m, ValueCode(size, e, n))
    ensures |ValueCode(size, e, n)| == 2
    ensures Assigned(m, MemoryRun(prog, w, frame, m, 2), m.cpu.pc + 2, m.cpu.t1, size,
                     H.Eval(w, m.cpu.locals, m.cpu.trace, e))
  {
    hide Shadow, MemoryRun, UniqueLabels, WordBytes, StructLayout.Write, Lies, MemoryStep;
    var x := LowerExpr(e, n);
    assert PlainCode([]) == [];
    assert ValueCode(size, e, n) == [Plain(Load(T2, x.operand)), StoreThrough(T1, T2, size)];
    RunStorePlainValue(prog, w, frame, m, x.operand, H.Eval(w, m.cpu.locals, m.cpu.trace, e).v, size);
  }

  predicate InRange(at: int) {
    -TWO63 <= at < TWO63
  }

  /** A member gets its value, whatever computing it does to the registers. */
  lemma RunMember(prog: seq<MemoryInstr>, w: World, frame: nat -> Word, m: MemoryMachine, uid: nat, offset: nat,
                  size: nat, e: H.Expr, n: nat)
    returns (k: nat)
    requires MemberOk(e) && InRange(frame(uid) + offset) && offset < TWO63
    requires ReadyAt(prog, m, LowerMember(uid, offset, size, e, n).code)
    ensures Assigned(m, MemoryRun(prog, w, frame, m, k), m.cpu.pc + |LowerMember(uid, offset, size, e, n).code|,
                     frame(uid) + offset, size, H.Eval(w, m.cpu.locals, m.cpu.trace, e))
  {
    hide Effect, Shadow, MemoryRun, UniqueLabels, WordBytes, StructLayout.Write, H.Eval, H.ExprOk, H.IsComplex,
      LowerExpr, Lies, MemoryStep, AddressCode, ValueCode;
    MemberShape(uid, offset, size, e, n);
    LiesSplit(prog, m.cpu.pc, AddressCode(uid, offset), ValueCode(size, e, n));
    RunAddress(prog, w, frame, m, uid, offset);
    var m1 := MemoryRun(prog, w, frame, m, 4);
    var j: nat;
    if H.IsComplex(e) {
      j := RunComplexValue(prog, w, frame, m1, size, e, n);
    } else {
      RunEasyValue(prog, w, frame, m1, size, e, n);
      j := 2;
    }
    MemoryRunSplit(prog, w, frame, m, 4, j);
    k := 4 + j;
  }

  lemma MemberShape(uid: nat, offset: nat, size: nat, e: H.Expr, n: nat)
    ensures LowerMember(uid, offset, size, e, n).code == AddressCode(uid, offset) + ValueCode(size, e, n)
    ensures |AddressCode(uid, offset)| == 4
  {
    hide H.IsComplex, LowerExpr;
  }

  // ----- A value that overwrites its address -----

  /** From the address on, for a value that is not complex but takes code: the address is gone, and the
      value is stored to where it points itself. */
  lemma RunMisplacedValue(prog: seq<MemoryInstr>, w: World, frame: nat -> Word, m: MemoryMachine, size: nat,
                          e: H.Expr, n: nat)
    returns (k: nat)
    requires H.ExprOk(e) && !H.IsComplex(e) && !e.Literal? && !e.Variable? && ReadyAt(prog, m, ValueCode(size, e, n))
    ensures var r := H.Eval(w, m.cpu.locals, m.cpu.trace, e);
      Assigned(m, MemoryRun(prog, w, frame, m, k), m.cpu.pc + |ValueCode(size, e, n)|, if r.Val? then r.v else 0,
               size, r)
  {
    hide Effect, Shadow, MemoryRun, UniqueLabels, WordBytes, StructLayout.Write, H.Eval, H.ExprOk, H.IsComplex,
      LowerExpr, PlainCode, Lies, MemoryStep;
    var x := LowerExpr(e, n);
    var c := m.cpu;
    var store := [Plain(Load(T2, x.operand)), StoreThrough(T1, T2, size)];
    ValueInFirst(e, n);
    LiesSplit(prog, c.pc, PlainCode(x.code), store);
    k := RunValue(prog, w, frame, m, e, n);
    var r := H.Eval(w, c.locals, c.trace, e);
    if r.Val? {
      var m1 := MemoryRun(prog, w, frame, m, k);
      RunStorePlainValue(prog, w, frame, m1, x.operand, r.v, size);
      MemoryRunSplit(prog, w, frame, m, k, 2);
      k := k + 2;
    }
  }

  /** The whole assignment of such a member: a negated variable, say, is stored at its own value. */
  lemma RunMisplacedMember(prog: seq<MemoryInstr>, w: World, frame: nat -> Word, m: MemoryMachine, uid: nat,
                           offset: nat, size: nat, e: H.Expr, n: nat)
    returns (k: nat)
    requires H.ExprOk(e) && !H.IsComplex(e) && !e.Literal? && !e.Variable?
    requires InRange(frame(uid) + offset) && offset < TWO63
    requires ReadyAt(prog, m, LowerMember(uid, offset, size, e, n).code)
    ensures var r := H.Eval(w, m.cpu.locals, m.cpu.trace, e);
      Assigned(m, MemoryRun(prog, w, frame, m, k), m.cpu.pc + |LowerMember(uid, offset, size, e, n).code|,
               if r.Val? then r.v else 0, size, r)
  {
    hide Effect, Shadow, MemoryRun, UniqueLabels, WordBytes, StructLayout.Write, H.Eval, H.ExprOk, H.IsComplex,
      LowerExpr, Lies, MemoryStep, AddressCode, ValueCode;
    MemberShape(uid, offset, size, e, n);
    LiesSplit(prog, m.cpu.pc, AddressCode(uid, offset), ValueCode(size, e, n));
    RunAddress(prog, w, frame, m, uid, offset);
    var j := RunMisplacedValue(prog, w, frame, MemoryRun(prog, w, frame, m, 4), size, e, n);
    MemoryRunSplit(prog, w, frame, m, 4, j);
    k := 4 + j;
  }

  lemma ValueInFirst(e: H.Expr, n: nat)
    requires !H.IsComplex(e) && !e.Literal? && !e.Variable?
    ensures LowerExpr(e, n).operand == T1
  {
  }

  /** Storing the value to either address does the same. */
  predicate SameStore(memory: map<int, Byte>, v: Word, at: int, size: nat) {
    StructLayout.Write(memory, v, WordBytes(v, size)) == StructLayout.Write(memory, at, WordBytes(v, size))
  }

  /** For such a value the memory is the right one, whatever it held before, if and only if the value
      happens to be the member's address. */
  lemma MisplacedUnless(v: Word, at: int, size: nat)
    requires size > 0
    ensures (forall memory: map<int, Byte> :: SameStore(memory, v, at, size)) <==> v == at
  {
    if v != at {
      StoresDiffer(v, at, size);
    }
  }

  lemma StoresDiffer(v: Word, at: int, size: nat)
    requires size > 0 && v != at
    ensures !SameStore(map[], v, at, size)
  {
    hide StructLayout.Write, WordBytes;
    var bytes := WordBytes(v, size);
    var none: map<int, Byte> := map[];
    WriteHolds(none, v, bytes);
    WriteHolds(none, at, bytes);
    var a, b := StructLayout.Write(none, v, bytes), StructLayout.Write(none, at, bytes);
    assert ByteAt(a, v + 0, bytes[0]) && ByteAt(b, at + 0, bytes[0]);
    assert v < at ==> SameAt(none, b, v);
    assert at < v ==> SameAt(none, a, at);
    assert a != b;
  }

  // ----- All members -----

  /** The values of the members up to a fault, with the calls made. */
  datatype MemberValues = MemberValues(values: seq<Word>, trace: seq<Event>, faulted: bool)

  ghost function EvalMembers(w: World, locals: map<nat, Word>, trace: seq<Event>, inits: seq<MemberValue>):
    (r: MemberValues)
    ensures |r.values| <= |inits| && (!r.faulted ==> |r.values| == |inits|)
    decreases |inits|
  {
    if inits == [] then MemberValues([], trace, false)
    else
      var before := EvalMembers(w, locals, trace, inits[..|inits| - 1]);
      if before.faulted then before
      else
        var x := H.Eval(w, locals, before.trace, inits[|inits| - 1].value);
        if x.Fault? then MemberValues(before.values, x.trace, true)
        else MemberValues(before.values + [x.v], x.trace, false)
  }

  /** The members with the bytes of their values. */
  function InBytes(ms: seq<Member>, inits: seq<MemberValue>, values: seq<Word>): (r: seq<Initial>)
    requires MembersExist(ms, inits) && |values| <= |inits|
    ensures |r| == |values| && Fitting(ms, r)
  {
    seq(|values|, k requires 0 <= k < |values| =>
      Initial(inits[k].index, WordBytes(values[k], MemberSize(ms[inits[k].index]))))
  }

  ghost predicate MembersOk(inits: seq<MemberValue>) {
    forall k :: 0 <= k < |inits| ==> MemberOk(inits[k].value)
  }

  /** The struct lies in the address space. */
  ghost predicate Placed(ms: seq<Member>, packed: bool, base: Word) {
    base + Size(ms, packed) < TWO63 && Size(ms, packed) < TWO63
  }

  lemma MemberPlaced(ms: seq<Member>, packed: bool, base: Word, i: nat)
    requires Placed(ms, packed, base) && i < |ms|
    ensures InRange(base + Offset(ms, packed, i)) && Offset(ms, packed, i) < TWO63
  {
    hide Offset, MemberSize, Size;
    MembersFit(ms, packed);
    assert Offset(ms, packed, i) + MemberSize(ms[i]) <= Size(ms, packed);
  }

  /** The members assigned so far are in memory. */
  ghost predicate AllAssigned(m: MemoryMachine, m': MemoryMachine, p: nat, base: Word, ms: seq<Member>, packed: bool,
                              inits: seq<MemberValue>, r: MemberValues)
    requires MembersExist(ms, inits) && |r.values| <= |inits|
  {
    && m'.memory == Initialised(m.memory, base, ms, packed, InBytes(ms, inits, r.values))
    && if r.faulted then FaultedFrom(m.cpu, m'.cpu, r.trace) else Reached(m.cpu, m'.cpu, p, m.cpu.stack, r.trace)
  }

  /** The code of an initialiser assigns every member its own value in the order written, up to the
      first fault, with the calls of the values and nothing left on the stack. */
  lemma {:induction false} SimInitializer(prog: seq<MemoryInstr>, w: World, frame: nat -> Word, m: MemoryMachine,
                                          ms: seq<Member>, packed: bool, uid: nat, inits: seq<MemberValue>, n: nat)
    returns (k: nat)
    requires MembersExist(ms, inits) && MembersOk(inits) && Placed(ms, packed, frame(uid))
    requires ReadyAt(prog, m, LowerMembers(ms, packed, uid, inits, n).code)
    ensures AllAssigned(m, MemoryRun(prog, w, frame, m, k),
                        m.cpu.pc + |LowerMembers(ms, packed, uid, inits, n).code|, frame(uid), ms, packed, inits,
                        EvalMembers(w, m.cpu.locals, m.cpu.trace, inits))
    decreases |inits|
  {
    hide Shadow, MemoryRun, UniqueLabels, H.Eval, MemberOk, Lies, MemoryStep, LowerMember, Offset, MemberSize,
      Placed, InBytes, Initialised;
    if inits == [] {
      k := 0;
      NothingAssigned(prog, w, frame, m, ms, packed, frame(uid), inits);
    } else {
      var last := |inits| - 1;
      var i := inits[last].index;
      var before := LowerMembers(ms, packed, uid, inits[..last], n);
      var x := LowerMember(uid, Offset(ms, packed, i), MemberSize(ms[i]), inits[last].value, before.next);
      LiesSplit(prog, m.cpu.pc, before.code, x.code);
      k := SimInitializer(prog, w, frame, m, ms, packed, uid, inits[..last], n);
      var r := EvalMembers(w, m.cpu.locals, m.cpu.trace, inits[..last]);
      PrefixBytes(ms, inits, r.values);
      if !r.faulted {
        var m1 := MemoryRun(prog, w, frame, m, k);
        MemberPlaced(ms, packed, frame(uid), i);
        var j := RunMember(prog, w, frame, m1, uid, Offset(ms, packed, i), MemberSize(ms[i]), inits[last].value,
                           before.next);
        MemoryRunSplit(prog, w, frame, m, k, j);
        k := k + j;
        var v := H.Eval(w, m.cpu.locals, r.trace, inits[last].value);
        if v.Val? {
          LastAssigned(m.memory, frame(uid), ms, packed, inits, r.values, v.v);
        }
      }
    }
  }

  lemma NothingAssigned(prog: seq<MemoryInstr>, w: World, frame: nat -> Word, m: MemoryMachine, ms: seq<Member>,
                        packed: bool, base: Word, inits: seq<MemberValue>)
    requires inits == []
    ensures MemoryRun(prog, w, frame, m, 0) == m
    ensures Initialised(m.memory, base, ms, packed, InBytes(ms, inits, [])) == m.memory
  {
  }

  lemma PrefixBytes(ms: seq<Member>, inits: seq<MemberValue>, values: seq<Word>)
    requires MembersExist(ms, inits) && inits != [] && |values| < |inits|
    ensures InBytes(ms, inits[..|inits| - 1], values) == InBytes(ms, inits, values)
  {
    hide WordBytes, MemberSize;
  }

  lemma LastAssigned(memory: map<int, Byte>, base: Word, ms: seq<Member>, packed: bool, inits: seq<MemberValue>,
                     values: seq<Word>, v: Word)
    requires MembersExist(ms, inits) && inits != [] && |values| == |inits| - 1
    ensures var i := inits[|inits| - 1].index;
      StructLayout.Write(Initialised(memory, base, ms, packed, InBytes(ms, inits, values)),
                         base + Offset(ms, packed, i), WordBytes(v, MemberSize(ms[i])))
        == Initialised(memory, base, ms, packed, InBytes(ms, inits, values + [v]))
  {
    hide WordBytes, MemberSize, Offset, StructLayout.Write;
    var all := InBytes(ms, inits, values + [v]);
    assert all[..|values|] == InBytes(ms, inits, values);
  }

  // ----- Labels -----

  lemma ShadowBoth(a: seq<MemoryInstr>, b: seq<MemoryInstr>)
    ensures Shadow(a + b) == Shadow(a) + Shadow(b)
  {
  }

  lemma ShadowPlain(code: seq<Instr>)
    ensures Shadow(PlainCode(code)) == code
  {
  }

  ghost predicate ShadowStraight(code: seq<MemoryInstr>) {
    Labels.NoLabels(Shadow(code))
  }

  lemma MemberLabels(uid: nat, offset: nat, size: nat, e: H.Expr, n: nat)
    ensures var x := LowerMember(uid, offset, size, e, n); Labels.Closed(Shadow(x.code), n, x.next, {})
  {
    hide Labels.Closed, LowerExpr, H.IsComplex, Shadow, PlainCode, Labels.NoLabels;
    var x := LowerExpr(e, n);
    var a := AddressCode(uid, offset);
    var push := [Plain(Push(T1))];
    var late := [Plain(Load(T1, x.operand)), Plain(Pop(T2)), StoreThrough(T2, T1, size)];
    var early := [Plain(Load(T2, x.operand)), StoreThrough(T1, T2, size)];
    PiecesAreStraight(uid, offset, x.operand, size);
    Labels.ExprLabels(e, n);
    ShadowPlain(x.code);
    if H.IsComplex(e) {
      ShadowBoth(PlainCode(x.code), late);
      Labels.WithStraight(x.code, Shadow(late), n, x.next, {});
      ShadowBoth(push, PlainCode(x.code) + late);
      Labels.WithStraight(x.code + Shadow(late), Shadow(push), n, x.next, {});
      ShadowBoth(a, push + (PlainCode(x.code) + late));
      Labels.WithStraight(Shadow(push) + (x.code + Shadow(late)), Shadow(a), n, x.next, {});
    } else {
      ShadowBoth(PlainCode(x.code), early);
      Labels.WithStraight(x.code, Shadow(early), n, x.next, {});
      ShadowBoth(a, PlainCode(x.code) + early);
      Labels.WithStraight(x.code + Shadow(early), Shadow(a), n, x.next, {});
    }
  }

  lemma PiecesAreStraight(uid: nat, offset: nat, o: Operand, size: nat)
    ensures ShadowStraight(AddressCode(uid, offset)) && ShadowStraight([Plain(Push(T1))])
    ensures ShadowStraight([Plain(Load(T1, o)), Plain(Pop(T2)), StoreThrough(T2, T1, size)])
    ensures ShadowStraight([Plain(Load(T2, o)), StoreThrough(T1, T2, size)])
  {
  }

  /** Labels in an initialiser are new, defined once, and no jump leaves it. */
  lemma {:induction false} InitializerLabels(ms: seq<Member>, packed: bool, uid: nat, inits: seq<MemberValue>, n: nat)
    requires MembersExist(ms, inits)
    ensures var x := LowerMembers(ms, packed, uid, inits, n); Labels.Closed(Shadow(x.code), n, x.next, {})
    decreases |inits|
  {
    hide Labels.Closed, Shadow, Offset, MemberSize, LowerMember;
    if inits == [] {
      assert Shadow([]) == [];
      Labels.StraightIsClosed([], n, n, {});
    } else {
      var last := inits[|inits| - 1];
      var before := LowerMembers(ms, packed, uid, inits[..|inits| - 1], n);
      var offset, size := Offset(ms, packed, last.index), MemberSize(ms[last.index]);
      var x := LowerMember(uid, offset, size, last.value, before.next);
      InitializerLabels(ms, packed, uid, inits[..|inits| - 1], n);
      MemberLabels(uid, offset, size, last.value, before.next);
      ShadowBoth(before.code, x.code);
      Labels.Adjacent(Shadow(before.code), Shadow(x.code), n, before.next, x.next, {});
    }
  }

  // ----- Reading back -----

  function Unsigned(bs: seq<Byte>): nat
    decreases |bs|
  {
    if bs == [] then 0 else bs[0] + 256 * Unsigned(bs[1..])
  }

  function Half(size: nat): nat
    requires size > 0
    decreases size
  {
    if size == 1 then 128 else 256 * Half(size - 1)
  }

  /** The value the bytes of a signed member stand for. */
  function Signed(bs: seq<Byte>): int
    requires bs != []
  {
    var u := Unsigned(bs);
    if u < Half(|bs|) then u else u - 2 * Half(|bs|)
  }

  lemma {:induction false} UnsignedOf(x: nat, size: nat)
    requires size > 0
    ensures Half(size) > 0 && Unsigned(BytesOf(x, size)) == x % (2 * Half(size))
    decreases size
  {
    var bs := BytesOf(x, size);
    assert bs[1..] == BytesOf(x / 256, size - 1);
    if size == 1 {
      assert Unsigned(bs[1..]) == 0;
    } else {
      UnsignedOf(x / 256, size - 1);
      SplitLowest(x, 2 * Half(size - 1));
    }
  }

  lemma SplitLowest(x: nat, k: nat)
    requires k > 0
    ensures x % 256 + 256 * (x / 256 % k) == x % (256 * k)
  {
    var q, r := x / 256 / k, x / 256 % k;
    assert x / 256 == q * k + r;
    assert x == 256 * (q * k + r) + x % 256 == q * (256 * k) + (256 * r + x % 256);
    Unique(x, 256 * k, q, 256 * r + x % 256);
  }

  lemma Halves()
    ensures Half(1) == 0x80 && Half(2) == 0x8000 && Half(4) == 0x8000_0000 && Half(8) == TWO63
  {
    assert Half(3) == 0x80_0000;
    assert Half(5) == 0x80_0000_0000 && Half(6) == 0x8000_0000_0000 && Half(7) == 0x80_0000_0000_0000;
  }

  lemma SignedOf(v: Word, half: int)
    requires half == 0x80 || half == 0x8000 || half == 0x8000_0000 || half == TWO63
    ensures var u := Bits(v) % (2 * half);
      (if u < half then u else u - 2 * half) == v <==> 0 - half <= v < half
  {
    if half == 0x80 {
    } else if half == 0x8000 {
    } else if half == 0x8000_0000 {
    } else {
      assert half == TWO63;
    }
  }

  /** The value of a member is the one assigned if and only if the member is wide enough for it. */
  lemma ReadsBack(v: Word, size: nat)
    requires Granule(size)
    ensures Signed(WordBytes(v, size)) == v <==> 0 - Half(size) <= v < Half(size)
  {
    hide Half, BytesOf, Unsigned, Bits;
    UnsignedOf(Bits(v), size);
    Halves();
    SignedOf(v, Half(size));
  }

  /** After the code of an initialiser that does not fault every scalar member holds its own value, no
      matter what kinds of values the others have or in which order they are written; and no byte
      outside the struct has changed. */
  lemma MembersReadBack(prog: seq<MemoryInstr>, w: World, frame: nat -> Word, m: MemoryMachine, ms: seq<Member>,
                        packed: bool, uid: nat, base: Word, inits: seq<MemberValue>, n: nat)
    returns (k: nat)
    requires MembersExist(ms, inits) && MembersOk(inits) && Placed(ms, packed, base) && frame(uid) == base
    requires ReadyAt(prog, m, LowerMembers(ms, packed, uid, inits, n).code)
    requires !EvalMembers(w, m.cpu.locals, m.cpu.trace, inits).faulted
    ensures var m' := MemoryRun(prog, w, frame, m, k);
      var r := EvalMembers(w, m.cpu.locals, m.cpu.trace, inits);
      && Reached(m.cpu, m'.cpu, m.cpu.pc + |LowerMembers(ms, packed, uid, inits, n).code|, m.cpu.stack, r.trace)
      && (forall i :: 0 <= i < |inits| && LastOf(inits, i) ==>
            Holds(m'.memory, base + Offset(ms, packed, inits[i].index),
                  WordBytes(r.values[i], MemberSize(ms[inits[i].index]))))
      && SameOutside(m.memory, m'.memory, base, base + Size(ms, packed))
  {
    hide MemoryRun, LowerMembers, ReadyAt, Offset, MemberSize, Size, Initialised, WordBytes, MembersOk, Placed, Holds,
      EvalMembers, LastOf, SameOutside;
    k := SimInitializer(prog, w, frame, m, ms, packed, uid, inits, n);
    var r := EvalMembers(w, m.cpu.locals, m.cpu.trace, inits);
    MembersHold(m.memory, base, ms, packed, inits, r.values);
    var after := Initialised(m.memory, base, ms, packed, InBytes(ms, inits, r.values));
    assert MemoryRun(prog, w, frame, m, k).memory == after;
  }

  lemma MembersHold(memory: map<int, Byte>, base: Word, ms: seq<Member>, packed: bool, inits: seq<MemberValue>,
                    values: seq<Word>)
    requires MembersExist(ms, inits) && |values| == |inits|
    ensures var after := Initialised(memory, base, ms, packed, InBytes(ms, inits, values));
      && (forall i :: 0 <= i < |inits| && LastOf(inits, i) ==>
            Holds(after, base + Offset(ms, packed, inits[i].index),
                  WordBytes(values[i], MemberSize(ms[inits[i].index]))))
      && SameOutside(memory, after, base, base + Size(ms, packed))
  {
    hide Offset, MemberSize, Size, Initialised, WordBytes, Holds, SameAt;
    var all := InBytes(ms, inits, values);
    var after := Initialised(memory, base, ms, packed, all);
    forall i | 0 <= i < |inits| && LastOf(inits, i)
      ensures Holds(after, base + Offset(ms, packed, inits[i].index),
                    WordBytes(values[i], MemberSize(ms[inits[i].index])))
    {
      InitialisedReads(memory, base, ms, packed, all, i);
    }
    forall a: int | !(base <= a < base + Size(ms, packed))
      ensures SameAt(memory, after, a)
    {
      InitialisedOutside(memory, base, ms, packed, all, a);
    }
  }

  ghost predicate SameOutside(before: map<int, Byte>, after: map<int, Byte>, lo: int, hi: int) {
    forall a: int :: !(lo <= a < hi) ==> SameAt(before, after, a)
  }

  /** No later part of the initialiser names the same member. */
  predicate LastOf(inits: seq<MemberValue>, i: nat)
    requires i < |inits|
  {
    forall j :: i < j < |inits| ==> inits[j].index != inits[i].index
  }
}
