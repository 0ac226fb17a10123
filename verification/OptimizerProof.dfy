/** The optimizer's rules keep the behaviour of the program whenever their side conditions hold. */
module OptimizerProof {
  import opened Words
  import opened WordAlgebra
  import opened Environment
  import opened Lir
  import opened Liveness
  import opened Rewriting
  import opened Optimizing

  // ----- Runs over a window -----

  /** Executes the instruction at p next, if the machine still runs. */
  function Then(prog: seq<Instr>, w: World, m: Machine, p: nat): Machine {
    if m.status.Running? then Step(prog, w, m.(pc := p)) else m
  }

  lemma {:induction false} RunBlank(prog: seq<Instr>, w: World, m: Machine, k: nat)
    requires m.status.Running? && m.pc + k <= |prog|
    requires forall i :: m.pc <= i < m.pc + k ==> prog[i].op.NOP?
    ensures Run(prog, w, m, k) == m.(pc := m.pc + k)
    decreases k
  {
    if k > 0 {
      var s := Step(prog, w, m);
      assert s == m.(pc := m.pc + 1);
      RunBlank(prog, w, s, k - 1);
    }
  }

  /** From a position through NOPs to the next instruction and over it. */
  lemma RunTo(prog: seq<Instr>, w: World, m: Machine, t: nat, n: nat)
    requires t < n < |prog| && Blank(prog, t, n)
    requires m.status.Running? ==> m.pc == t + 1
    ensures Run(prog, w, m, n - t) == Then(prog, w, m, n)
  {
    hide Step;
    if m.status.Running? {
      RunBlank(prog, w, m, n - t - 1);
      RunSplit(prog, w, m, n - t - 1, 1);
      OneStepMore(prog, w, m.(pc := n), 1);
    } else {
      HaltedStays(prog, w, m, n - t);
    }
  }

  lemma StepMoves(prog: seq<Instr>, w: World, m: Machine)
    requires m.status.Running? && m.pc < |prog| && !IsControl(prog[m.pc].op)
    ensures var r := Effect(w, m, prog[m.pc]);
      Step(prog, w, m) == if r.status.Running? then r.(pc := m.pc + 1) else r
  {
    hide Effect, Read;
  }

  /** A window of two instructions. */
  lemma RunPair(prog: seq<Instr>, w: World, m: Machine, t: nat, n: nat)
    requires t < n < |prog| && Blank(prog, t, n) && !IsControl(prog[t].op)
    requires m.status.Running? && m.pc == t
    ensures Run(prog, w, m, n + 1 - t) == Then(prog, w, Effect(w, m, prog[t]), n)
  {
    hide Step, Effect;
    StepMoves(prog, w, m);
    OneStepMore(prog, w, m, n + 1 - t);
    RunTo(prog, w, Step(prog, w, m), t, n);
  }

  /** A window of three instructions. */
  lemma RunTriple(prog: seq<Instr>, w: World, m: Machine, t: nat, n: nat, u: nat)
    requires t < n < u < |prog| && Blank(prog, t, n) && Blank(prog, n, u)
    requires !IsControl(prog[t].op) && !IsControl(prog[n].op)
    requires m.status.Running? && m.pc == t
    ensures Run(prog, w, m, u + 1 - t) == Then(prog, w, Then(prog, w, Effect(w, m, prog[t]), n), u)
  {
    hide Step, Effect;
    RunPair(prog, w, m, t, n);
    RunSplit(prog, w, m, n + 1 - t, u - n);
    var x := Effect(w, m, prog[t]);
    if x.status.Running? {
      StepMoves(prog, w, x.(pc := n));
    }
    RunTo(prog, w, Then(prog, w, x, n), n, u);
  }

  /** A window with a rewritten pair of instructions in it. */
  lemma PairDiffers(P: seq<Instr>, t: nat, n: nat, a: Instr, b: Instr)
    requires t < n < |P| && Blank(P, t, n) && !P[t].op.NEW_LABEL? && !P[n].op.NEW_LABEL?
    requires !a.op.NEW_LABEL? && !b.op.NEW_LABEL?
    ensures Differ(P, P[t := a][n := b], t, n + 1)
  {
  }

  /** Executing an instruction does not depend on the rewritten stretch. */
  lemma ExecuteElsewhere(P: seq<Instr>, Q: seq<Instr>, lo: nat, hi: nat, w: World, m: Machine, i: Instr)
    requires Differ(P, Q, lo, hi)
    ensures Execute(P, w, m, i) == Execute(Q, w, m, i)
    ensures var s := Execute(P, w, m, i);
      s.status.Running? ==> s.pc == m.pc + 1 || !(lo <= s.pc < hi)
  {
    hide Effect, Read, Find, Differ;
    DifferLength(P, Q, lo, hi);
    if i.dst.Label? {
      FindSame(P, Q, lo, hi, i.dst.id);
    }
  }

  lemma DifferLength(P: seq<Instr>, Q: seq<Instr>, lo: nat, hi: nat)
    requires Differ(P, Q, lo, hi)
    ensures |P| == |Q| && lo < hi <= |P|
  {
  }

  // ----- Machines at other positions -----

  lemma ReadAnywhere(w: World, m: Machine, pc: nat, o: Operand)
    ensures Read(w, m.(pc := pc), o) == Read(w, m, o)
  {
  }

  lemma ReadUnderStack(w: World, m: Machine, stack: seq<Word>, o: Operand)
    ensures Read(w, m.(stack := stack), o) == Read(w, m, o)
  {
  }

  lemma WriteAnywhere(m: Machine, pc: nat, o: Operand, v: Word)
    ensures Write(m.(pc := pc), o, v) == Write(m, o, v).(pc := pc)
  {
  }

  lemma KnownOperand(w: World, m: Machine, o: Operand, v: Word)
    requires m.Valid() && Holder(o)
    ensures Read(w, m, o).Some?
    ensures Write(m, o, v).status == m.status && Write(m, o, v).Valid()
    ensures SameBut(CellOf(o).value, m, Write(m, o, v))
    ensures Read(w, Write(m, o, v), o) == Some(v)
    ensures Write(m, o, Read(w, m, o).value) == m
  {
    var c := CellOf(o).value;
    SameButFrom(c, m, Write(m, o, v));
  }

  // ----- Forwarding a loaded value -----

  lemma SourceByValue(prog: seq<Instr>, w: World, m: Machine, i: Instr, v: Word)
    requires ReadsSource(i.op) && Read(w, m, i.src) == Some(v) && !i.src.Nothing? && !i.op.MUL?
    ensures Execute(prog, w, m, i) == Execute(prog, w, m, i.(src := Imm(v)))
  {
    hide Read, Write, Goto, Alu;
    ReadImmediate(w, m, v);
  }

  lemma ReadImmediate(w: World, m: Machine, v: Word)
    ensures Read(w, m, Imm(v)) == Some(v)
  {
  }

  lemma SourceMissing(prog: seq<Instr>, w: World, m: Machine, i: Instr)
    requires ReadsSource(i.op) && Read(w, m, i.src) == None && !i.src.Nothing?
    ensures Execute(prog, w, m, i) == m.(status := Stuck)
  {
    hide Read, Write, Goto, Alu;
  }

  lemma SourceIgnored(prog: seq<Instr>, w: World, m: Machine, i: Instr, o: Operand)
    requires !ReadsSource(i.op) && !i.op.CALL?
    ensures Execute(prog, w, m, i) == Execute(prog, w, m, i.(src := o))
  {
    hide Read, Write, Goto, Alu, SetResult, UnaryResult;
  }

  /** The instruction b at n with its source loaded into a dead register before, and b taking the
      value from where it was loaded. */
  lemma ExecuteForwarded(P: seq<Instr>, w: World, m: Machine, n: nat, a: Instr, v: Word)
    requires n < |P| && m.Valid() && m.status.Running? && m.pc == n
    requires CanForward(P, n, a) && Read(w, m, a.src) == Some(v)
    ensures Nearly(P, CellOf(a.dst).value, Execute(P, w, Write(m, a.dst, v), P[n]),
                   Execute(P, w, m, P[n].(src := a.src)))
  {
    if P[n].op.MUL? {
      MultiplyForwarded(P, w, m, n, a, v);
    } else {
      OtherForwarded(P, w, m, n, a, v);
      NearlyNext(P, CellOf(a.dst).value, Execute(P, w, Write(m, a.dst, v), P[n]),
                 Execute(P, w, m, P[n].(src := a.src)));
    }
  }

  lemma NearlyNext(P: seq<Instr>, c: Cell, p: Machine, q: Machine)
    requires NextSame(P, c, p, q)
    ensures Nearly(P, c, p, q)
  {
    hide NextSame;
    assert NextSame(P, Slot(REMAINDER_SLOT), q, q) by { NextItself(P, q); }
    assert Between(P, c, p, q, q);
  }

  lemma NextItself(P: seq<Instr>, q: Machine)
    ensures NextSame(P, Slot(REMAINDER_SLOT), q, q)
  {
  }

  lemma OtherForwarded(P: seq<Instr>, w: World, m: Machine, n: nat, a: Instr, v: Word)
    requires n < |P| && m.Valid() && m.status.Running? && m.pc == n && !P[n].op.MUL?
    requires CanForward(P, n, a) && Read(w, m, a.src) == Some(v)
    ensures NextSame(P, CellOf(a.dst).value, Execute(P, w, Write(m, a.dst, v), P[n]),
                     Execute(P, w, m, P[n].(src := a.src)))
  {
    hide Execute, Read, Write, DeadPast, Dead, SameBut, NextSame;
    var c := CellOf(a.dst).value;
    var b := P[n];
    var m1 := Write(m, a.dst, v);
    LoadedRegister(w, m, a.dst, v);
    var bi := b.(src := Imm(v));
    if ReadsSource(b.op) {
      SourceByValue(P, w, m1, b, v);
      SourceByValue(P, w, m, b.(src := a.src), v);
    } else {
      SourceIgnored(P, w, m1, b, Imm(v));
      SourceIgnored(P, w, m, b.(src := a.src), Imm(v));
    }
    ExecuteSame(P, w, c, m1, m, bi);
  }

  /** What a multiplication does at a position. */
  function Multiplied(w: World, m: Machine, i: Instr, x: Word, v: Word): Machine {
    var e := Write(WithRemainder(w, m, i, x, v), i.dst, Wrap(x * v));
    if e.status.Running? then e.(pc := m.pc + 1) else e
  }

  lemma ExecuteMultiply(P: seq<Instr>, w: World, m: Machine, i: Instr, v: Word)
    requires i.op.MUL? && Read(w, m, i.src) == Some(v)
    ensures var x := Read(w, m, i.dst);
      Execute(P, w, m, i) == if x.None? then m.(status := Stuck) else Multiplied(w, m, i, x.value, v)
  {
    hide Read, Write, WithRemainder, Wrap, Goto;
  }

  /** A multiplication after a load, and one that takes the value from where it was loaded: they leave
      different registers behind, and different remainders when that is a constant. */
  lemma MultiplyForwarded(P: seq<Instr>, w: World, m: Machine, n: nat, a: Instr, v: Word)
    requires n < |P| && m.Valid() && m.status.Running? && m.pc == n && P[n].op.MUL?
    requires CanForward(P, n, a) && Read(w, m, a.src) == Some(v)
    ensures Nearly(P, CellOf(a.dst).value, Execute(P, w, Write(m, a.dst, v), P[n]),
                   Execute(P, w, m, P[n].(src := a.src)))
  {
    hide Execute, Read, Write, DeadPast, Dead, SameBut, NextSame, Nearly, Multiplied, Is;
    var c := CellOf(a.dst).value;
    var b := P[n];
    var m1 := Write(m, a.dst, v);
    LoadedRegister(w, m, a.dst, v);
    ReadSame(w, c, m1, m, b.dst);
    ExecuteMultiply(P, w, m1, b, v);
    ExecuteMultiply(P, w, m, b.(src := a.src), v);
    var x := Read(w, m, b.dst);
    if x.None? {
      StuckSame(P, c, m1, m);
      NearlyNext(P, c, m1.(status := Stuck), m.(status := Stuck));
    } else {
      MultipliedSame(P, w, c, m1, m, n, x.value, v);
      OtherRemainder(P, w, m, n, a.src, x.value, v);
      NearlyBetween(P, c, Multiplied(w, m1, b, x.value, v), Multiplied(w, m, b, x.value, v),
                    Multiplied(w, m, b.(src := a.src), x.value, v));
    }
  }

  lemma NearlyBetween(P: seq<Instr>, c: Cell, p: Machine, x: Machine, q: Machine)
    requires Between(P, c, p, x, q)
    ensures Nearly(P, c, p, q)
  {
  }

  lemma StuckSame(P: seq<Instr>, c: Cell, m: Machine, m': Machine)
    requires SameBut(c, m, m')
    ensures NextSame(P, c, m.(status := Stuck), m'.(status := Stuck))
  {
    hide SameBut;
    StatusSame(c, m, m', Stuck);
  }

  lemma MultipliedSame(P: seq<Instr>, w: World, c: Cell, m: Machine, m': Machine, n: nat, x: Word, v: Word)
    requires n < |P| && P[n].op.MUL? && SameBut(c, m, m') && m.pc == n && m.status.Running?
    requires DeadPast(P, n, c) && !Is(P[n].dst, c)
    ensures NextSame(P, c, Multiplied(w, m, P[n], x, v), Multiplied(w, m', P[n], x, v))
  {
    hide SameBut, Write, WithRemainder, Wrap, Dead, DeadPast, Is;
    var b := P[n];
    DeadOnward(P, n, c);
    RemainderSame(w, c, m, m', b, x, v);
    WriteSame(c, WithRemainder(w, m, b, x, v), WithRemainder(w, m', b, x, v), b.dst, Wrap(x * v));
    MultiplyOverwrites(b, c);
    PcSame(c, m, m', 0);
    PcSame(c, Write(WithRemainder(w, m, b, x, v), b.dst, Wrap(x * v)),
           Write(WithRemainder(w, m', b, x, v), b.dst, Wrap(x * v)), n + 1);
  }

  lemma MultiplyOverwrites(i: Instr, c: Cell)
    requires i.op.MUL?
    ensures Overwrites(i, c) == Is(i.dst, c)
  {
  }

  lemma OtherRemainder(P: seq<Instr>, w: World, m: Machine, n: nat, o: Operand, x: Word, v: Word)
    requires n < |P| && P[n].op.MUL? && m.pc == n && m.Valid() && m.status.Running?
    requires P[n].src.Register? && (o.Imm? ==> Dead(P, n + 1, Slot(REMAINDER_SLOT)))
    ensures NextSame(P, Slot(REMAINDER_SLOT), Multiplied(w, m, P[n], x, v), Multiplied(w, m, P[n].(src := o), x, v))
  {
    hide SameBut, Write, Wrap, Dead, Product;
    var c := Slot(REMAINDER_SLOT);
    var b := P[n];
    if o.Imm? {
      var s := WithRemainder(w, m, b, x, v);
      SpoiltOnly(w, m, b, x, v);
      WriteSame(c, s, m, b.dst, Wrap(x * v));
      PcSame(c, Write(s, b.dst, Wrap(x * v)), Write(m, b.dst, Wrap(x * v)), n + 1);
    }
  }

  lemma SpoiltOnly(w: World, m: Machine, i: Instr, x: Word, v: Word)
    requires m.Valid()
    ensures SameBut(Slot(REMAINDER_SLOT), WithRemainder(w, m, i, x, v), m)
  {
    hide Product, TruncMod;
    SameButFrom(Slot(REMAINDER_SLOT), WithRemainder(w, m, i, x, v), m);
  }

  lemma LoadedRegister(w: World, m: Machine, o: Operand, v: Word)
    requires m.Valid() && Known(o)
    ensures var m1 := Write(m, o, v);
      && SameBut(CellOf(o).value, m1, m) && m1.status == m.status && m1.pc == m.pc && Read(w, m1, o) == Some(v)
      && !o.Nothing?
  {
    hide SameBut;
    KnownOperand(w, m, o, v);
    SameButSymmetric(CellOf(o).value, m, Write(m, o, v));
  }

  lemma SameButSymmetric(c: Cell, m: Machine, m': Machine)
    requires SameBut(c, m, m')
    ensures SameBut(c, m', m) && m.pc == m'.pc && m.trace == m'.trace && m.status == m'.status
  {
    SlotsSame(c, m, m');
  }

  /** Two machines that go on alike agree at the end of the window. */
  lemma NearlyAgrees(P: seq<Instr>, lo: nat, hi: nat, c: Cell, p: Machine, q: Machine)
    requires Nearly(P, c, p, q)
    requires p.status.Running? ==> !(lo < p.pc < hi)
    ensures Agree(P, lo, hi, c, p, q)
  {
    hide NextSame;
    var x: Machine :| Between(P, c, p, x, q);
    NextStatus(P, c, p, x);
    NextStatus(P, Slot(REMAINDER_SLOT), x, q);
  }

  lemma NextAgrees(P: seq<Instr>, lo: nat, hi: nat, c: Cell, p: Machine, q: Machine)
    requires NextSame(P, c, p, q)
    requires p.status.Running? ==> !(lo < p.pc < hi)
    ensures Agree(P, lo, hi, c, p, q)
  {
    hide NextSame, Nearly, Agree;
    NearlyNext(P, c, p, q);
    NearlyAgrees(P, lo, hi, c, p, q);
  }

  lemma EndsAgree(P: seq<Instr>, lo: nat, hi: nat, c: Cell, p: Machine, q: Machine)
    requires !p.status.Running? && SameEnd(p, q)
    ensures Agree(P, lo, hi, c, p, q)
  {
  }

  lemma ForwardFrom(P: seq<Instr>, t: nat, n: nat, w: World, m: Machine)
    requires t < n < |P| && Blank(P, t, n) && IsMove(P[t].op) && CanForward(P, n, P[t])
    requires m.Valid() && m.pc == t && m.status.Running?
    ensures AlikeFrom(P, Forward(P, t, n).prog, t, n + 1, CellOf(P[t].dst).value, w, m)
  {
    hide Step, Execute, Read, Write, Agree, CanForward, Differ, NextSame, Nearly, ReadsSource;
    var Q := Forward(P, t, n).prog;
    var a, b := P[t], P[n];
    ForwardShape(P, t, n);
    RunPair(P, w, m, t, n);
    RunPair(Q, w, m, t, n);
    var m0 := m.(pc := n);
    StepExecutes(Q, w, m0);
    ReadAnywhere(w, m, n, a.src);
    ExecuteElsewhere(P, Q, t, n + 1, w, m0, b.(src := a.src));
    var v := Read(w, m, a.src);
    var c := CellOf(a.dst).value;
    if v.None? {
      StuckEither(P, Q, w, m, n, a);
      EndsAgree(P, t, n + 1, c, m.(status := Stuck), Execute(P, w, m0, b.(src := a.src)));
    } else {
      WriteAnywhere(m, n, a.dst, v.value);
      LoadedRegister(w, m, a.dst, v.value);
      var m1 := Write(m0, a.dst, v.value);
      StepExecutes(P, w, m1);
      ExecuteForwarded(P, w, m0, n, a, v.value);
      ExecuteElsewhere(P, Q, t, n + 1, w, m1, b);
      NearlyAgrees(P, t, n + 1, c, Execute(P, w, m1, b), Execute(P, w, m0, b.(src := a.src)));
    }
  }

  lemma StepExecutes(prog: seq<Instr>, w: World, m: Machine)
    requires m.status.Running? && m.pc < |prog|
    ensures Step(prog, w, m) == Execute(prog, w, m, prog[m.pc])
  {
    hide Execute;
  }

  lemma ForwardShape(P: seq<Instr>, t: nat, n: nat)
    requires t < n < |P| && Blank(P, t, n) && IsMove(P[t].op) && CanForward(P, n, P[t])
    ensures var Q := Forward(P, t, n).prog;
      && Differ(P, Q, t, n + 1) && Blank(Q, t, n) && |Q| == |P| && Q[t].op.NOP? && Q[n] == P[n].(src := P[t].src)
      && Known(P[t].dst)
  {
  }

  /** An operand without a value stops both programs in the window. */
  lemma StuckEither(P: seq<Instr>, Q: seq<Instr>, w: World, m: Machine, n: nat, a: Instr)
    requires n < |P| == |Q| && m.status.Running? && m.Valid() && CanForward(P, n, a) && Read(w, m, a.src) == None
    ensures SameEnd(m.(status := Stuck), Execute(P, w, m.(pc := n), P[n].(src := a.src)))
  {
    hide Execute, DeadPast;
    if ReadsSource(P[n].op) {
      SourceMissing(P, w, m.(pc := n), P[n].(src := a.src));
    } else {
      ReadableReads(w, m, a.src);
    }
  }

  lemma ReadableReads(w: World, m: Machine, o: Operand)
    requires m.Valid() && Readable(o)
    ensures Read(w, m, o).Some?
  {
  }

  // ----- Pushes and pops -----

  lemma SameAgrees(P: seq<Instr>, lo: nat, hi: nat, c: Cell, p: Machine, q: Machine)
    requires p == q && (p.status.Running? ==> !(lo < p.pc < hi))
    ensures Agree(P, lo, hi, c, p, q)
  {
    hide Agree;
    NextAgrees(P, lo, hi, c, p, q);
  }

  lemma EffectPush(w: World, m: Machine, i: Instr)
    requires i.op.PUSH?
    ensures var v := Read(w, m, i.src);
      Effect(w, m, i) == if v.None? then m.(status := Stuck) else m.(stack := m.stack + [v.value])
  {
    hide Read;
  }

  lemma EffectPop(w: World, m: Machine, i: Instr, rest: seq<Word>, v: Word)
    requires i.op.POP? && m.stack == rest + [v]
    ensures Effect(w, m, i) == Write(m.(stack := rest), i.dst, v)
  {
    hide Write;
    assert m.stack[..|m.stack| - 1] == rest;
  }

  lemma EffectMove(w: World, m: Machine, i: Instr, v: Word)
    requires IsMove(i.op) && Read(w, m, i.src) == Some(v) && !i.src.Nothing? && !OnStack(i.dst)
    ensures Effect(w, m, i) == Write(m, i.dst, v)
  {
    hide Write, Read;
  }

  /** Effects at another position. */
  lemma ThenMoves(prog: seq<Instr>, w: World, m: Machine, n: nat)
    requires n < |prog| && m.status.Running? && !IsControl(prog[n].op)
    ensures var r := Effect(w, m.(pc := n), prog[n]);
      Then(prog, w, m, n) == if r.status.Running? then r.(pc := n + 1) else r
  {
    hide Step, Effect;
    StepMoves(prog, w, m.(pc := n));
  }

  /** push r; pop r is nothing. */
  lemma CancelFrom(P: seq<Instr>, t: nat, n: nat, w: World, m: Machine)
    requires t < n < |P| && Blank(P, t, n) && P[t].op.PUSH? && P[n].op.POP? && P[t].src == P[n].dst && Known(P[n].dst)
    requires m.Valid() && m.pc == t && m.status.Running?
    ensures AlikeFrom(P, P[t := Omit(P[t])][n := Omit(P[n])], t, n + 1, Accumulator, w, m)
  {
    hide Step, Read, Write, Agree, Known, Effect;
    var Q := P[t := Omit(P[t])][n := Omit(P[n])];
    RunPair(P, w, m, t, n);
    RunPair(Q, w, m, t, n);
    EffectNop(w, m, Q[t]);
    ThenMoves(Q, w, m, n);
    EffectNop(w, m.(pc := n), Q[n]);
    EffectPush(w, m, P[t]);
    ReadAnywhere(w, m, n, P[t].src);
    KnownReads(w, m, P[t].src);
    var v := Read(w, m, P[t].src).value;
    var m1 := m.(stack := m.stack + [v]);
    ThenMoves(P, w, m1, n);
    EffectPop(w, m1.(pc := n), P[n], m.stack, v);
    KnownReads(w, m.(pc := n), P[n].dst);
    SameAgrees(P, t, n + 1, Accumulator, m.(pc := n + 1), m.(pc := n + 1));
  }

  lemma EffectNop(w: World, m: Machine, i: Instr)
    requires i.op.NOP?
    ensures Effect(w, m, i) == m
  {
  }

  lemma KnownReads(w: World, m: Machine, o: Operand)
    requires m.Valid() && Known(o)
    ensures Read(w, m, o).Some? && Write(m, o, Read(w, m, o).value) == m
    ensures o.Register? && CellOf(o).Some?
  {
    KnownOperand(w, m, o, 0);
  }

  /** push x; pop d moves x to d. */
  lemma MoveFrom(P: seq<Instr>, t: nat, n: nat, op: Opcode, w: World, m: Machine)
    requires t < n < |P| && Blank(P, t, n) && P[t].op.PUSH? && P[n].op.POP?
    requires IsMove(op) && (op.STORE? ==> !P[t].src.Nothing? && !OnStack(P[n].dst))
    requires m.Valid() && m.pc == t && m.status.Running?
    ensures AlikeFrom(P, P[t := Omit(P[t])][n := Instr(op, P[n].dst, P[t].src)], t, n + 1, Accumulator, w, m)
  {
    hide Step, Read, Write, Agree, Effect;
    var i := Instr(op, P[n].dst, P[t].src);
    var Q := P[t := Omit(P[t])][n := i];
    RunPair(P, w, m, t, n);
    RunPair(Q, w, m, t, n);
    EffectNop(w, m, Q[t]);
    ThenMoves(Q, w, m, n);
    EffectPush(w, m, P[t]);
    var m0 := m.(pc := n);
    ReadAnywhere(w, m, n, P[t].src);
    EffectMoves(w, m0, i);
    var v := Read(w, m, P[t].src);
    if v.None? {
      EndsAgree(P, t, n + 1, Accumulator, m.(status := Stuck), m0.(status := Stuck));
    } else {
      var m1 := m.(stack := m.stack + [v.value]);
      ThenMoves(P, w, m1, n);
      EffectPop(w, m1.(pc := n), P[n], m.stack, v.value);
      var r := Write(m0, P[n].dst, v.value);
      SameAgrees(P, t, n + 1, Accumulator, if r.status.Running? then r.(pc := n + 1) else r,
                 if r.status.Running? then r.(pc := n + 1) else r);
    }
  }

  lemma EffectMoves(w: World, m: Machine, i: Instr)
    requires IsMove(i.op) && (i.op.STORE? ==> !i.src.Nothing? && !OnStack(i.dst))
    ensures var v := Read(w, m, i.src);
      Effect(w, m, i) == if v.None? then m.(status := Stuck) else Write(m, i.dst, v.value)
  {
    hide Write, Read;
  }

  /** pop r; move d, r pops into d when r is dead afterwards. */
  lemma PopIntoFrom(P: seq<Instr>, t: nat, n: nat, w: World, m: Machine)
    requires t < n < |P| && Blank(P, t, n) && P[t].op.POP? && IsMove(P[n].op) && CanPopInto(P, n, P[t])
    requires m.Valid() && m.pc == t && m.status.Running?
    ensures AlikeFrom(P, P[t := Omit(P[t])][n := P[n].(op := POP)], t, n + 1, CellOf(P[t].dst).value, w, m)
  {
    hide Step, Read, Write, Agree, Effect, Dead, Is, SameBut;
    var a, b := P[t], P[n];
    var Q := P[t := Omit(a)][n := b.(op := POP)];
    var c := CellOf(a.dst).value;
    RunPair(P, w, m, t, n);
    RunPair(Q, w, m, t, n);
    EffectNop(w, m, Q[t]);
    ThenMoves(Q, w, m, n);
    var m0 := m.(pc := n);
    if m.stack == [] {
      PopNothing(w, m, a);
      PopNothing(w, m0, Q[n]);
      EndsAgree(P, t, n + 1, c, m.(status := Stuck), m0.(status := Stuck));
    } else {
      var rest, v := m.stack[..|m.stack| - 1], m.stack[|m.stack| - 1];
      var s := m0.(stack := rest);
      EffectPop(w, m, a, rest, v);
      EffectPop(w, m0, Q[n], rest, v);
      WriteAnywhere(m.(stack := rest), n, a.dst, v);
      LoadedRegister(w, m.(stack := rest), a.dst, v);
      LoadedRegister(w, s, a.dst, v);
      ThenMoves(P, w, Write(m.(stack := rest), a.dst, v), n);
      EffectMove(w, Write(s, a.dst, v), b, v);
      WriteSame(c, Write(s, a.dst, v), s, b.dst, v);
      AfterWrite(P, t, n, c, Write(Write(s, a.dst, v), b.dst, v), Write(s, b.dst, v));
    }
  }

  lemma PopNothing(w: World, m: Machine, i: Instr)
    requires i.op.POP? && m.stack == []
    ensures Effect(w, m, i) == m.(status := Stuck)
  {
  }

  /** Results that differ in a register that is dead after the instruction at n. */
  lemma AfterWrite(P: seq<Instr>, t: nat, n: nat, c: Cell, x: Machine, y: Machine)
    requires t < n < |P| && IsMove(P[n].op) && DeadPast(P, n, c)
    requires StillSame(c, Is(P[n].dst, c), x, y)
    ensures Agree(P, t, n + 1, c, if x.status.Running? then x.(pc := n + 1) else x,
                  if y.status.Running? then y.(pc := n + 1) else y)
  {
    hide SameBut, Dead, DeadPast, Is, Agree;
    DeadOnward(P, n, c);
    SameButSymmetric(c, x, y);
    PcSame(c, x, y, n + 1);
    NextAgrees(P, t, n + 1, c, if x.status.Running? then x.(pc := n + 1) else x,
               if y.status.Running? then y.(pc := n + 1) else y);
  }

  // ----- Windows of three -----

  /** A move that touches neither the stack nor the register c can change places with a write to it. */
  lemma MoveCommutes(w: World, m: Machine, b: Instr, o: Operand, v: Word)
    requires m.Valid() && IsMove(b.op) && Holder(o) && Readable(b.src) && Writable(b.dst)
    requires !Is(b.dst, CellOf(o).value) && !Is(b.src, CellOf(o).value)
    ensures Effect(w, m, b).status == m.status && Effect(w, m, b).stack == m.stack && Effect(w, m, b).Valid()
    ensures Write(Effect(w, m, b), o, v) == Effect(w, Write(m, o, v), b)
  {
    hide Read, Is;
    ReadableReads(w, m, b.src);
    KnownOperand(w, m, o, v);
    ReadSame(w, CellOf(o).value, m, Write(m, o, v), b.src);
    if !(b.op.STORE? && b.src.Nothing? && b.dst.Local?) {
      WritesCommute(m, b.dst, Read(w, m, b.src).value, o, v);
    }
  }

  lemma WritesCommute(m: Machine, d: Operand, x: Word, o: Operand, v: Word)
    requires m.Valid() && Holder(o) && Writable(d) && !Is(d, CellOf(o).value)
    ensures Write(Write(m, d, x), o, v) == Write(Write(m, o, v), d, x)
    ensures Write(m, d, x).status == m.status && Write(m, d, x).stack == m.stack && Write(m, d, x).Valid()
  {
  }

  lemma MoveElsewhere(w: World, m: Machine, b: Instr, pc: nat, stack: seq<Word>)
    requires m.Valid() && IsMove(b.op) && Readable(b.src) && Writable(b.dst)
    ensures Effect(w, m.(pc := pc, stack := stack), b) == Effect(w, m, b).(pc := pc, stack := stack)
    ensures Effect(w, m, b).status == m.status
  {
    hide Read;
    ReadableReads(w, m, b.src);
    ReadAnywhere(w, m, pc, b.src);
    ReadUnderStack(w, m.(pc := pc), stack, b.src);
  }

  lemma TripleDiffers(P: seq<Instr>, t: nat, n: nat, u: nat, a: Instr, d: Instr)
    requires t < n < u < |P| && Blank(P, t, n) && Blank(P, n, u)
    requires !P[t].op.NEW_LABEL? && !P[n].op.NEW_LABEL? && !P[u].op.NEW_LABEL?
    requires !a.op.NEW_LABEL? && !d.op.NEW_LABEL?
    ensures var Q := P[u := d][t := a];
      Differ(P, Q, t, u + 1) && Blank(Q, t, n) && Blank(Q, n, u) && |Q| == |P| && Q[t] == a && Q[n] == P[n] && Q[u] == d
  {
  }

  /** push x; move; pop p does the pop's load first. */
  lemma MoveUpFrom(P: seq<Instr>, t: nat, n: nat, u: nat, w: World, m: Machine)
    requires t < n < u < |P| && Blank(P, t, n) && Blank(P, n, u)
    requires P[t].op.PUSH? && IsMove(P[n].op) && P[u].op.POP? && CanMoveUp(P[n], P[u])
    requires m.Valid() && m.pc == t && m.status.Running?
    ensures AlikeFrom(P, P[u := Omit(P[u])][t := Instr(LOAD, P[u].dst, P[t].src)], t, u + 1, Accumulator, w, m)
  {
    hide Step, Read, Write, Agree, Effect, Known, Holder, Readable, Writable, Is, Blank;
    var a, b, d := P[t], P[n], P[u];
    var i := Instr(LOAD, d.dst, a.src);
    TripleDiffers(P, t, n, u, i, Omit(d));
    var Q := P[u := Omit(d)][t := i];
    RunTriple(P, w, m, t, n, u);
    RunTriple(Q, w, m, t, n, u);
    EffectPush(w, m, a);
    EffectMoves(w, m, i);
    var v := Read(w, m, a.src);
    if v.None? {
      EndsAgree(P, t, u + 1, Accumulator, m.(status := Stuck), m.(status := Stuck));
    } else {
      MoveUpRuns(P, w, m, n, u, v.value);
      NopAfterMove(Q, w, Write(m, d.dst, v.value), n, u, m, d.dst, v.value);
      MoveCommutes(w, m, b, d.dst, v.value);
      var r := Write(Effect(w, m, b), d.dst, v.value).(pc := u + 1);
      SameAgrees(P, t, u + 1, Accumulator, r, r);
    }
  }

  /** push and pop around a move. */
  lemma MoveUpRuns(P: seq<Instr>, w: World, m: Machine, n: nat, u: nat, v: Word)
    requires n < u < |P| && IsMove(P[n].op) && P[u].op.POP? && CanMoveUp(P[n], P[u])
    requires m.Valid() && m.status.Running?
    ensures Then(P, w, Then(P, w, m.(stack := m.stack + [v]), n), u)
      == Write(Effect(w, m, P[n]), P[u].dst, v).(pc := u + 1)
  {
    hide Step, Read, Write, Effect, Known, Holder, Readable, Writable, Is;
    var b, d := P[n], P[u];
    var m1 := m.(stack := m.stack + [v]);
    ThenMoves(P, w, m1, n);
    MoveElsewhere(w, m, b, n, m.stack + [v]);
    MoveCommutes(w, m, b, d.dst, v);
    var e := Effect(w, m, b);
    var x := e.(pc := n + 1, stack := m.stack + [v]);
    ThenMoves(P, w, x, u);
    EffectPop(w, x.(pc := u), d, m.stack, v);
    assert x.(pc := u).(stack := m.stack) == e.(pc := u);
    WriteAnywhere(e, u, d.dst, v);
    KnownWrites(e, d.dst, v);
  }

  lemma KnownWrites(m: Machine, o: Operand, v: Word)
    requires m.Valid() && Holder(o)
    ensures Write(m, o, v).status == m.status && Write(m, o, v).Valid()
  {
  }

  lemma NopAfterMove(Q: seq<Instr>, w: World, q: Machine, n: nat, u: nat, m: Machine, o: Operand, v: Word)
    requires n < u < |Q| && IsMove(Q[n].op) && Q[u].op.NOP? && Holder(o) && Readable(Q[n].src) && Writable(Q[n].dst)
    requires m.Valid() && m.status.Running? && q == Write(m, o, v)
    ensures Then(Q, w, Then(Q, w, q, n), u) == Effect(w, q, Q[n]).(pc := u + 1)
  {
    hide Step, Read, Write, Effect, Known, Holder, Readable, Writable;
    KnownWrites(m, o, v);
    ThenMoves(Q, w, q, n);
    MoveElsewhere(w, q, Q[n], n, q.stack);
    var e := Effect(w, q, Q[n]);
    MoveElsewhere(w, q, Q[n], 0, q.stack);
    assert q.(pc := n, stack := q.stack) == q.(pc := n);
    assert e.stack == q.stack by { MoveKeepsStack(w, q, Q[n]); }
    ThenMoves(Q, w, e.(pc := n + 1), u);
    EffectNop(w, e.(pc := u), Q[u]);
  }

  lemma MoveKeepsStack(w: World, m: Machine, b: Instr)
    requires m.Valid() && IsMove(b.op) && Readable(b.src) && Writable(b.dst)
    ensures Effect(w, m, b).stack == m.stack
  {
    hide Read;
    ReadableReads(w, m, b.src);
  }

  lemma EffectMath(w: World, m: Machine, i: Instr, x: Word, y: Word)
    requires IsMath(i.op) && Read(w, m, i.dst) == Some(x) && Read(w, m, i.src) == Some(y)
    ensures var r := Alu(i.op, x, y);
      Effect(w, m, i) ==
        if r.None? then m.(status := Trapped) else Write(WithRemainder(w, m, i, x, y), i.dst, r.value)
  {
    hide Read, Write, Alu, WithRemainder;
  }

  lemma NothingSpoilt(w: World, m: Machine, i: Instr, x: Word, y: Word)
    requires !SpoilsRemainder(i)
    ensures WithRemainder(w, m, i, x, y) == m
  {
  }

  lemma Commutes(op: Opcode, x: Word, y: Word)
    requires op.ADD? || op.MUL?
    ensures Alu(op, x, y) == Alu(op, y, x) && Alu(op, x, y).Some?
  {
    assert x * y == y * x;
  }

  /** store y, x; pop x; op x, y: with a commutative op the operands may change places. */
  lemma SwapFrom(P: seq<Instr>, t: nat, n: nat, u: nat, w: World, m: Machine)
    requires t < n < u < |P| && Blank(P, t, n) && Blank(P, n, u)
    requires P[t].op.STORE? && P[n].op.POP? && (P[u].op.ADD? || P[u].op.MUL?)
    requires CanSwap(P, u, P[t]) && P[n].dst == P[t].src
    requires m.Valid() && m.pc == t && m.status.Running?
    ensures AlikeFrom(P, P[n := P[n].(dst := P[t].dst)][t := Omit(P[t])], t, u + 1,
                      CellOf(P[t].dst).value, w, m)
  {
    hide Step, Read, Write, Agree, Effect, Dead, Is, SameBut, Alu, Overwrites;
    var a, b, d := P[t], P[n], P[u];
    var y, x := a.dst, a.src;
    var Q := P[n := b.(dst := y)][t := Omit(a)];
    RunTriple(P, w, m, t, n, u);
    RunTriple(Q, w, m, t, n, u);
    EffectNop(w, m, Q[t]);
    KnownReads(w, m, x);
    var v0 := Read(w, m, x).value;
    EffectMove(w, m, a, v0);
    KnownWrites(m, y, v0);
    var m1 := Write(m, y, v0);
    ThenMoves(P, w, m1, n);
    ThenMoves(Q, w, m, n);
    KnownKeeps(m, y, v0);
    var c := CellOf(y).value;
    if m.stack == [] {
      PopNothing(w, m1.(pc := n), b);
      PopNothing(w, m.(pc := n), Q[n]);
      EndsAgree(P, t, u + 1, c, m1.(pc := n, status := Stuck), m.(pc := n, status := Stuck));
    } else {
      var rest, v := m.stack[..|m.stack| - 1], m.stack[|m.stack| - 1];
      EffectPop(w, m1.(pc := n), b, rest, v);
      EffectPop(w, m.(pc := n), Q[n], rest, v);
      var s := m.(pc := u, stack := rest);
      SwapPops(w, m, n, u, rest, y, x, v0, v);
      ThenMoves(P, w, Write(m1.(pc := n, stack := rest), x, v).(pc := n + 1), u);
      ThenMoves(Q, w, Write(m.(pc := n, stack := rest), y, v).(pc := n + 1), u);
      ReadAnywhere(w, m, u, x);
      ReadUnderStack(w, m.(pc := u), rest, x);
      SwapEnds(w, s, d, y, x, v0, v);
      NotOverwritten(d, y);
      AfterOperation(P, t, u, c, Effect(w, Write(Write(s, y, v0), x, v), d), Effect(w, Write(s, y, v), d));
    }
  }

  lemma KnownKeeps(m: Machine, o: Operand, v: Word)
    requires m.Valid() && Known(o)
    ensures var m1 := Write(m, o, v);
      m1.stack == m.stack && m1.pc == m.pc && m1.locals == m.locals && m1.trace == m.trace && m1.status == m.status
  {
  }

  lemma WriteElsewhere(m: Machine, o: Operand, v: Word, pc: nat, stack: seq<Word>)
    requires m.Valid() && Known(o)
    ensures Write(m, o, v).(pc := pc, stack := stack) == Write(m.(pc := pc, stack := stack), o, v)
    ensures Write(m, o, v).status == m.status && Write(m, o, v).Valid()
  {
  }

  lemma SwapPops(w: World, m: Machine, n: nat, u: nat, rest: seq<Word>, y: Operand, x: Operand, v0: Word, v: Word)
    requires m.Valid() && Known(y) && Known(x) && m.status.Running?
    ensures var s := m.(pc := u, stack := rest);
      && Write(Write(m, y, v0).(pc := n, stack := rest), x, v).status.Running?
      && Write(Write(m, y, v0).(pc := n, stack := rest), x, v).(pc := u) == Write(Write(s, y, v0), x, v)
      && Write(m.(pc := n, stack := rest), y, v).status.Running?
      && Write(m.(pc := n, stack := rest), y, v).(pc := u) == Write(s, y, v)
  {
    hide Write, Known;
    WriteElsewhere(m, y, v0, u, rest);
    WriteElsewhere(m, y, v0, n, rest);
    var m1 := Write(m, y, v0);
    WriteElsewhere(m1.(pc := n, stack := rest), x, v, u, rest);
    WriteElsewhere(m.(pc := n, stack := rest), y, v, u, rest);
    KnownKeepsStack(m1.(pc := n, stack := rest), x, v);
    KnownKeepsStack(m.(pc := n, stack := rest), y, v);
  }

  lemma KnownKeepsStack(m: Machine, o: Operand, v: Word)
    requires m.Valid() && Known(o)
    ensures Write(m, o, v).stack == m.stack
  {
  }

  /** Both orders leave the same value in x; y holds what was in x before or what was popped. */
  lemma SwapEnds(w: World, s: Machine, d: Instr, y: Operand, x: Operand, v0: Word, v: Word)
    requires s.Valid() && s.status.Running? && Known(y) && Known(x) && CellOf(y) != CellOf(x)
    requires d.dst == x && d.src == y && (d.op.ADD? || d.op.MUL?) && Read(w, s, x) == Some(v0)
    ensures SameBut(CellOf(y).value, Effect(w, Write(Write(s, y, v0), x, v), d), Effect(w, Write(s, y, v), d))
    ensures Effect(w, Write(s, y, v), d).status.Running?
  {
    hide Read, Write, Effect, SameBut, Alu;
    var c := CellOf(y).value;
    var m1, q := Write(s, y, v0), Write(s, y, v);
    WritesApart(w, s, y, x, v0, v);
    var p := Write(m1, x, v);
    Commutes(d.op, v, v0);
    EffectMath(w, p, d, v, v0);
    EffectMath(w, q, d, v0, v);
    var r := Alu(d.op, v, v0).value;
    if d.op.MUL? {
      SwapSpoils(w, s, d, y, x, v0, v, r);
    } else {
      NothingSpoilt(w, p, d, v, v0);
      NothingSpoilt(w, q, d, v0, v);
      WriteTwice(m1, x, v, r);
      WriteSame(c, m1, q, x, r);
      KnownWrites(q, x, r);
      KnownWrites(s, y, v);
    }
  }

  /** A product leaves the same behind in either order. */
  lemma SwapSpoils(w: World, s: Machine, d: Instr, y: Operand, x: Operand, v0: Word, v: Word, r: Word)
    requires s.Valid() && s.status.Running? && Known(y) && Known(x) && CellOf(y) != CellOf(x) && d.op.MUL?
    ensures var p, q := Write(Write(s, y, v0), x, v), Write(s, y, v);
      var p', q' := Write(WithRemainder(w, p, d, v, v0), x, r), Write(WithRemainder(w, q, d, v0, v), x, r);
      SameBut(CellOf(y).value, p', q') && q'.status.Running?
  {
    hide Product;
    ProductCommutes(v, v0);
    var p, q := Write(Write(s, y, v0), x, v), Write(s, y, v);
    SameButFrom(CellOf(y).value, Write(WithRemainder(w, p, d, v, v0), x, r),
                Write(WithRemainder(w, q, d, v0, v), x, r));
  }

  lemma ProductCommutes(a: Word, b: Word)
    ensures Product(a, b) == Product(b, a)
  {
    var x, y := Bits(a), Bits(b);
    assert x * y == y * x;
  }

  lemma WritesApart(w: World, s: Machine, y: Operand, x: Operand, v0: Word, v: Word)
    requires s.Valid() && Known(y) && Known(x) && CellOf(y) != CellOf(x) && Read(w, s, x) == Some(v0)
    ensures Write(s, y, v0).Valid()
    ensures var p, q := Write(Write(s, y, v0), x, v), Write(s, y, v);
      && p.Valid() && q.Valid()
      && Read(w, p, x) == Some(v) && Read(w, p, y) == Some(v0) && Read(w, q, x) == Some(v0) && Read(w, q, y) == Some(v)
    ensures SameBut(CellOf(y).value, Write(s, y, v0), Write(s, y, v))
  {
    SameButFrom(CellOf(y).value, Write(s, y, v0), Write(s, y, v));
  }

  lemma WriteTwice(m: Machine, o: Operand, v: Word, r: Word)
    requires m.Valid() && Known(o)
    ensures Write(Write(m, o, v), o, r) == Write(m, o, r)
  {
  }

  lemma NotOverwritten(d: Instr, y: Operand)
    requires IsMath(d.op) && Known(y) && CellOf(d.dst) != CellOf(y)
    ensures !Overwrites(d, CellOf(y).value)
  {
  }

  lemma AfterOperation(P: seq<Instr>, t: nat, u: nat, c: Cell, x: Machine, y: Machine)
    requires t < u < |P| && IsMath(P[u].op) && DeadPast(P, u, c) && !Overwrites(P[u], c)
    requires SameBut(c, x, y)
    ensures Agree(P, t, u + 1, c, if x.status.Running? then x.(pc := u + 1) else x,
                  if y.status.Running? then y.(pc := u + 1) else y)
  {
    hide SameBut, Dead, DeadPast, Overwrites, Agree;
    DeadOnward(P, u, c);
    SameButSymmetric(c, x, y);
    PcSame(c, x, y, u + 1);
    NextAgrees(P, t, u + 1, c, if x.status.Running? then x.(pc := u + 1) else x,
               if y.status.Running? then y.(pc := u + 1) else y);
  }

  // ----- Single instructions -----

  lemma SingleDiffers(P: seq<Instr>, t: nat, i: Instr)
    requires t < |P| && !P[t].op.NEW_LABEL? && !i.op.NEW_LABEL?
    ensures Differ(P, P[t := i], t, t + 1)
  {
  }

  /** An instruction replaced by one with the same effect in every state. */
  lemma SingleFrom(P: seq<Instr>, t: nat, i: Instr, w: World, m: Machine)
    requires t < |P| && !IsControl(P[t].op) && !IsControl(i.op)
    requires m.Valid() && m.pc == t && m.status.Running? && Effect(w, m, P[t]) == Effect(w, m, i)
    ensures AlikeFrom(P, P[t := i], t, t + 1, Accumulator, w, m)
  {
    hide Step, Effect, Agree;
    var Q := P[t := i];
    StepMoves(P, w, m);
    StepMoves(Q, w, m);
    OneStepMore(P, w, m, 1);
    OneStepMore(Q, w, m, 1);
    EffectKeepsPc(w, m, i);
    SameAgrees(P, t, t + 1, Accumulator, Step(P, w, m), Step(Q, w, m));
  }

  lemma SelfMove(w: World, m: Machine, i: Instr)
    requires m.Valid() && IsMove(i.op) && Known(i.dst) && i.src == i.dst
    ensures Effect(w, m, i) == m
  {
    hide Read, Write, Effect;
    KnownReads(w, m, i.dst);
    EffectMove(w, m, i, Read(w, m, i.dst).value);
  }

  /** Is the constant neutral for the operation? */
  predicate Neutral(op: Opcode, n: Word) {
    if op.ADD? || op.SUB? || op.SHL? || op.SHR? then n == 0 else (op.MUL? || op.DIV?) && n == 1
  }

  lemma NeutralAlu(op: Opcode, x: Word, n: Word)
    requires Neutral(op, n)
    ensures IsMath(op) && !op.MOD? && Alu(op, x, n) == Some(x) && (op.DIV? ==> n == 1)
  {
    WrapOfWord(x);
    assert Pow2(0) == 1 && x * 1 == x && x / 1 == x;
    var b: int := x;
    assert b < 0 ==> (-b) / 1 == -b;
  }

  lemma NeutralMath(w: World, m: Machine, i: Instr)
    requires m.Valid() && Known(i.dst) && i.src.Imm? && Neutral(i.op, i.src.n)
    ensures !i.op.DIV? ==> Effect(w, m, i) == m
    ensures SameBut(Slot(REMAINDER_SLOT), Effect(w, m, i), m)
  {
    hide Read, Write, Effect, Alu, Neutral, SameBut;
    KnownReads(w, m, i.dst);
    var x := Read(w, m, i.dst).value;
    NeutralAlu(i.op, x, i.src.n);
    ReadImmediate(w, m, i.src.n);
    SameButItself(Slot(REMAINDER_SLOT), m);
    if i.op.DIV? {
      DivisionByOne(w, m, i, x);
    } else {
      EffectMath(w, m, i, x, i.src.n);
      NothingSpoilt(w, m, i, x, i.src.n);
    }
  }

  /** Dividing by 1 changes the register of the remainder only. */
  lemma DivisionByOne(w: World, m: Machine, i: Instr, x: Word)
    requires m.Valid() && Known(i.dst) && i.op.DIV? && i.src == Imm(1)
    requires Read(w, m, i.dst) == Some(x) && Alu(DIV, x, 1) == Some(x)
    ensures SameBut(Slot(REMAINDER_SLOT), Effect(w, m, i), m)
  {
    hide TruncMod, TruncDiv, Wrap;
    var m1 := WithRemainder(w, m, i, x, 1);
    SameButFrom(Slot(REMAINDER_SLOT), Write(m1, i.dst, x), m);
  }

  lemma EffectMathAny(w: World, m: Machine, i: Instr)
    requires IsMath(i.op) && !i.op.DIV? && !i.op.MOD? && i.src.Imm?
    ensures var x := Read(w, m, i.dst);
      Effect(w, m, i) ==
        if x.None? then m.(status := Stuck)
        else
          var r := Alu(i.op, x.value, i.src.n);
          if r.None? then m.(status := Trapped) else Write(m, i.dst, r.value)
  {
    hide Read, Write, Alu;
    ReadImmediate(w, m, i.src.n);
  }

  lemma MulShiftMath(w: World, m: Machine, o: Operand, n: Word)
    requires m.Valid() && IsPowerOfTwo(Bits(n))
    ensures Effect(w, m, Instr(MUL, o, Imm(n))) == Effect(w, m, Instr(SHL, o, Imm(ShiftFor(n))))
  {
    hide Read, Write, Effect, Pow2, IsPowerOfTwo, Bits, ShiftLeft, Wrap;
    EffectMathAny(w, m, Instr(MUL, o, Imm(n)));
    EffectMathAny(w, m, Instr(SHL, o, Imm(ShiftFor(n))));
    var x := Read(w, m, o);
    if x.Some? {
      MulIsShift(x.value, n, ShiftFor(n));
    }
  }

  // ----- Folding -----

  /** Two instructions of which the first alone, changed, does the work of both. */
  lemma FoldFrom(P: seq<Instr>, t: nat, n: nat, i: Instr, w: World, m: Machine)
    requires t < n < |P| && Blank(P, t, n) && !IsControl(P[t].op) && !IsControl(P[n].op) && !IsControl(i.op)
    requires m.Valid() && m.pc == t && m.status.Running?
    requires var x := Effect(w, m, P[t]);
      var y := if x.status.Running? then Effect(w, x.(pc := n), P[n]) else x;
      var z := Effect(w, m, i);
      if y.status.Running? then z.(pc := n) == y else SameEnd(y, z) && !z.status.Running?
    ensures AlikeFrom(P, P[n := Omit(P[n])][t := i], t, n + 1, Accumulator, w, m)
  {
    hide Step, Effect, Agree, SameEnd, Blank;
    var Q := P[n := Omit(P[n])][t := i];
    assert Blank(Q, t, n) by { BlankStays(P, t, n, Omit(P[n]), i); }
    RunPair(P, w, m, t, n);
    RunPair(Q, w, m, t, n);
    var x, z := Effect(w, m, P[t]), Effect(w, m, i);
    if x.status.Running? {
      ThenMoves(P, w, x, n);
    }
    if z.status.Running? {
      ThenMoves(Q, w, z, n);
      EffectNop(w, z.(pc := n), Q[n]);
      SameAgrees(P, t, n + 1, Accumulator, z.(pc := n + 1), z.(pc := n + 1));
    } else {
      EndsAgree(P, t, n + 1, Accumulator, Then(P, w, x, n), z);
    }
  }

  lemma BlankStays(P: seq<Instr>, t: nat, n: nat, b: Instr, a: Instr)
    requires t < n < |P| && Blank(P, t, n)
    ensures Blank(P[n := b][t := a], t, n)
  {
  }

  lemma FoldIsAlu(g: Guards, op: Opcode, x: Word, y: Word)
    requires FoldsExactly(op, x, y)
    ensures IsMath(op) && !op.DIV? && !op.MOD? && Alu(op, x, y) == Some(Fold(g, op, x, y))
  {
    hide BitwiseWord, TruncDiv, Wrap;
    SmallWraps(Precise(op, x, y).value);
  }

  lemma SmallWraps(x: int)
    requires Small(x)
    ensures Wrap(x) == x
  {
  }

  lemma FoldLoadFrom(g: Guards, P: seq<Instr>, t: nat, n: nat, w: World, m: Machine)
    requires t < n < |P| && Blank(P, t, n) && P[t].op.LOAD? && IsMath(P[n].op)
    requires P[t].src.Imm? && P[n].src.Imm? && P[t].dst.Register? && P[n].dst == P[t].dst
    requires FoldsExactly(P[n].op, P[t].src.n, P[n].src.n)
    requires m.Valid() && m.pc == t && m.status.Running?
    ensures AlikeFrom(P, P[n := Omit(P[n])][t := P[t].(src := Imm(Fold(g, P[n].op, P[t].src.n, P[n].src.n)))],
                      t, n + 1, Accumulator, w, m)
  {
    hide Step, Effect, Read, Write, Agree, Alu, Fold, FoldsExactly, Blank, SameEnd;
    var a, b := P[t], P[n];
    var x, y := a.src.n, b.src.n;
    var i := a.(src := Imm(Fold(g, b.op, x, y)));
    FoldIsAlu(g, b.op, x, y);
    ReadImmediate(w, m, x);
    ReadImmediate(w, m, i.src.n);
    EffectMove(w, m, a, x);
    EffectMove(w, m, i, i.src.n);
    RegisterWrites(w, m, a.dst, x, i.src.n, n);
    EffectMathAny(w, Write(m, a.dst, x).(pc := n), b);
    FoldFrom(P, t, n, i, w, m);
  }

  /** A register operand either stands for a register, or stops the machine when written. */
  lemma RegisterWrites(w: World, m: Machine, o: Operand, x: Word, y: Word, n: nat)
    requires m.Valid() && o.Register? && m.status.Running?
    ensures Known(o) ==>
      && Write(m, o, x).status.Running? && Read(w, Write(m, o, x).(pc := n), o) == Some(x)
      && Write(Write(m, o, x).(pc := n), o, y) == Write(m, o, y).(pc := n)
      && Write(m, o, y).status.Running?
    ensures !Known(o) ==>
      && !Write(m, o, x).status.Running? && SameEnd(Write(m, o, x), Write(m, o, y)) && !Write(m, o, y).status.Running?
      && Read(w, m, o).None?
    ensures SameEnd(m.(status := Stuck), m.(status := Stuck))
  {
  }

  lemma FoldMathFrom(g: Guards, P: seq<Instr>, t: nat, n: nat, w: World, m: Machine)
    requires t < n < |P| && Blank(P, t, n) && IsMath(P[t].op) && IsMath(P[n].op)
    requires P[t].src.Imm? && P[n].src.Imm? && P[t].dst.Register? && P[n].dst == P[t].dst
    requires CombinesExactly(P[t].op, P[n].op, P[t].src.n, P[n].src.n)
    requires m.Valid() && m.pc == t && m.status.Running?
    ensures AlikeFrom(P, P[n := Omit(P[n])][t := P[t].(src := Imm(Fold(g, P[t].op, P[t].src.n, P[n].src.n)))],
                      t, n + 1, Accumulator, w, m)
  {
    hide Step, Effect, Read, Write, Agree, Alu, Fold, FoldsExactly, Blank, SameEnd;
    var a, b := P[t], P[n];
    var x, y := a.src.n, b.src.n;
    var i := a.(src := Imm(Fold(g, a.op, x, y)));
    CombinesTotal(a.op, b.op, x, y);
    EffectMathAny(w, m, a);
    EffectMathAny(w, m, i);
    var v := Read(w, m, a.dst);
    if v.Some? {
      CombinesRight(g, a.op, b.op, v.value, x, y);
      AluTotal(a.op, v.value, x);
      var r := Alu(a.op, v.value, x).value;
      AluTotal(b.op, r, y);
      AluTotal(a.op, v.value, i.src.n);
      RegisterWrites(w, m, a.dst, r, Alu(b.op, r, y).value, n);
      EffectMathAny(w, Write(m, a.dst, r).(pc := n), b);
    } else {
      RegisterWrites(w, m, a.dst, 0, 0, n);
    }
    FoldFrom(P, t, n, i, w, m);
  }

  /** Operations that never fault. */
  predicate Total(op: Opcode) {
    IsLinear(op) || IsBitwise(op) || IsShift(op)
  }

  lemma CombinesTotal(first: Opcode, second: Opcode, x: Word, y: Word)
    requires CombinesExactly(first, second, x, y)
    ensures Total(first) && Total(second)
  {
  }

  /** The one operation does what the two did. */
  lemma CombinesRight(g: Guards, first: Opcode, second: Opcode, a: Word, x: Word, y: Word)
    requires CombinesExactly(first, second, x, y)
    ensures Total(first) && Total(second)
    ensures Alu(second, Alu(first, a, x).value, y) == Alu(first, a, Fold(g, first, x, y))
  {
    hide BitwiseWord, Wrap, Fold, Alu, Precise, Combines;
    FoldIsAlu(g, first, x, y);
    FoldIsPrecise(g, first, x, y);
    if IsLinear(first) {
      LinearCombines(first, second, a, x, y);
    } else if IsBitwise(first) {
      BitwisePair(first, second, a, x, y);
    } else {
      ShiftPair(first, second, a, x, y);
    }
  }

  lemma FoldIsPrecise(g: Guards, op: Opcode, x: Word, y: Word)
    requires FitsDouble(op, x, y)
    ensures Fold(g, op, x, y) == Precise(op, x, y).value
  {
    hide Precise;
  }

  lemma LinearCombines(first: Opcode, second: Opcode, a: Word, x: Word, y: Word)
    requires IsLinear(first) && IsLinear(second) && FitsDouble(first, x, y) && Combines(first, second, x, y)
    ensures Alu(second, Alu(first, a, x).value, y) == Alu(first, a, Precise(first, x, y).value)
  {
    hide Wrap;
    var r := Precise(first, x, y).value;
    WrapOfWord(Alu(first, a, x).value);
    SmallWraps(r);
    match first
    case ADD => AddAssociates(a, x, if second.SUB? then 0 else y);
    case SUB =>
      WrapTurns(a - x);
      WrapAgain(Wrap(a - x) + y, a - (x - y), 0 - Turns(a - x));
    case MUL =>
      if second.MUL? {
        MulAssociates(a, x, y);
      }
  }

  lemma BitwisePair(first: Opcode, second: Opcode, a: Word, x: Word, y: Word)
    requires IsBitwise(first) && IsBitwise(second) && FitsDouble(first, x, y) && Combines(first, second, x, y)
    ensures Alu(second, Alu(first, a, x).value, y) == Alu(first, a, Precise(first, x, y).value)
  {
    hide BitwiseWord;
    if first == second {
      OperationsCombine(first, a, x, y);
    } else {
      BitwiseUnits(a);
      BitwiseUnits(x);
      BitwiseUnits(Alu(first, a, x).value);
    }
  }

  lemma ShiftPair(first: Opcode, second: Opcode, a: Word, x: Word, y: Word)
    requires IsShift(first) && IsShift(second) && FitsDouble(first, x, y) && Combines(first, second, x, y)
    ensures Alu(second, Alu(first, a, x).value, y) == Alu(first, a, Precise(first, x, y).value)
  {
    hide Wrap, Pow2;
    if y == 0 {
      ShiftByNone(Alu(first, a, x).value, x);
    } else if first.SHL? {
      LeftTwice(a, ShiftCount(x), y);
    } else {
      RightThenRight(a, ShiftCount(x), y);
    }
  }

  lemma ShiftByNone(v: Word, x: Word)
    ensures ShiftLeft(v, 0) == ShiftRight(v, 0) == v && x * Pow2(0) == x && x / Pow2(0) == x
  {
    hide Wrap;
    WrapOfWord(v);
  }

  /** Counts from 63 on all leave the sign. */
  lemma RightThenRight(a: Word, p: nat, q: nat)
    ensures Pow2(p) > 0 && Pow2(q) > 0 && Pow2(Least(p + q, WORD_BITS - 1)) > 0
    ensures Wrap(Wrap(a / Pow2(p)) / Pow2(q)) == Wrap(a / Pow2(Least(p + q, WORD_BITS - 1)))
  {
    hide Wrap, Pow2;
    RightTwice(a, p, q);
    QuotientIsWord(a, p);
    WrapOfWord(a / Pow2(p));
    if p + q >= WORD_BITS - 1 {
      FarRight(a, p + q);
      FarRight(a, WORD_BITS - 1);
    }
  }

  lemma AluTotal(op: Opcode, x: Word, y: Word)
    requires Total(op)
    ensures Alu(op, x, y).Some?
  {
    hide BitwiseWord, Wrap;
  }

  // ----- Every rewrite that meets its side conditions keeps the behaviour -----

  lemma ForwardKeeps(P: seq<Instr>, t: nat, n: nat)
    requires t < n < |P| && Blank(P, t, n) && IsMove(P[t].op) && CanForward(P, n, P[t])
    ensures SameBehaviour(P, Forward(P, t, n).prog)
  {
    hide AlikeFrom, Differ, Blank, CanForward, CanMoveUp, CanPopInto, CanSwap, Known, Forward, Fold, FoldsExactly,
        Neutral;
    var Q := Forward(P, t, n).prog;
    ForwardShape(P, t, n);
    var hi := n + 1;
    forall w: World, m: Machine | m.Valid() && m.pc == t && m.status.Running?
      ensures AlikeFrom(P, Q, t, hi, CellOf(P[t].dst).value, w, m)
    {
      ForwardFrom(P, t, n, w, m);
    }
    StretchReplaced(P, Q, t, n + 1, CellOf(P[t].dst).value);
  }

  lemma CancelKeeps(P: seq<Instr>, t: nat, n: nat)
    requires t < n < |P| && Blank(P, t, n) && P[t].op.PUSH? && P[n].op.POP? && P[t].src == P[n].dst && Known(P[n].dst)
    ensures SameBehaviour(P, P[t := Omit(P[t])][n := Omit(P[n])])
  {
    hide AlikeFrom, Differ, Blank, CanForward, CanMoveUp, CanPopInto, CanSwap, Known, Forward, Fold, FoldsExactly,
        Neutral;
    var Q := P[t := Omit(P[t])][n := Omit(P[n])];
    PairDiffers(P, t, n, Omit(P[t]), Omit(P[n]));
    var hi := n + 1;
    forall w: World, m: Machine | m.Valid() && m.pc == t && m.status.Running?
      ensures AlikeFrom(P, Q, t, hi, Accumulator, w, m)
    {
      CancelFrom(P, t, n, w, m);
    }
    StretchReplaced(P, Q, t, n + 1, Accumulator);
  }

  lemma MoveKeeps(P: seq<Instr>, t: nat, n: nat, op: Opcode)
    requires t < n < |P| && Blank(P, t, n) && P[t].op.PUSH? && P[n].op.POP?
    requires IsMove(op) && (op.STORE? ==> !P[t].src.Nothing? && !OnStack(P[n].dst))
    ensures SameBehaviour(P, P[t := Omit(P[t])][n := Instr(op, P[n].dst, P[t].src)])
  {
    hide AlikeFrom, Differ, Blank, CanForward, CanMoveUp, CanPopInto, CanSwap, Known, Forward, Fold, FoldsExactly,
        Neutral;
    var Q := P[t := Omit(P[t])][n := Instr(op, P[n].dst, P[t].src)];
    PairDiffers(P, t, n, Omit(P[t]), Instr(op, P[n].dst, P[t].src));
    var hi := n + 1;
    forall w: World, m: Machine | m.Valid() && m.pc == t && m.status.Running?
      ensures AlikeFrom(P, Q, t, hi, Accumulator, w, m)
    {
      MoveFrom(P, t, n, op, w, m);
    }
    StretchReplaced(P, Q, t, n + 1, Accumulator);
  }

  lemma PopIntoKeeps(P: seq<Instr>, t: nat, n: nat)
    requires t < n < |P| && Blank(P, t, n) && P[t].op.POP? && IsMove(P[n].op) && CanPopInto(P, n, P[t])
    ensures SameBehaviour(P, P[t := Omit(P[t])][n := P[n].(op := POP)])
  {
    hide AlikeFrom, Differ, Blank, CanForward, CanMoveUp, CanPopInto, CanSwap, Known, Forward, Fold, FoldsExactly,
        Neutral;
    var Q := P[t := Omit(P[t])][n := P[n].(op := POP)];
    PairDiffers(P, t, n, Omit(P[t]), P[n].(op := POP));
    PopIntoCell(P, n, P[t]);
    var hi := n + 1;
    forall w: World, m: Machine | m.Valid() && m.pc == t && m.status.Running?
      ensures AlikeFrom(P, Q, t, hi, CellOf(P[t].dst).value, w, m)
    {
      PopIntoFrom(P, t, n, w, m);
    }
    StretchReplaced(P, Q, t, n + 1, CellOf(P[t].dst).value);
  }

  lemma MoveUpKeeps(P: seq<Instr>, t: nat, n: nat, u: nat)
    requires t < n < u < |P| && Blank(P, t, n) && Blank(P, n, u)
    requires P[t].op.PUSH? && IsMove(P[n].op) && P[u].op.POP? && CanMoveUp(P[n], P[u])
    ensures SameBehaviour(P, P[u := Omit(P[u])][t := Instr(LOAD, P[u].dst, P[t].src)])
  {
    hide AlikeFrom, Differ, Blank, CanForward, CanMoveUp, CanPopInto, CanSwap, Known, Forward, Fold, FoldsExactly,
        Neutral;
    var Q := P[u := Omit(P[u])][t := Instr(LOAD, P[u].dst, P[t].src)];
    TripleDiffers(P, t, n, u, Instr(LOAD, P[u].dst, P[t].src), Omit(P[u]));
    var hi := u + 1;
    forall w: World, m: Machine | m.Valid() && m.pc == t && m.status.Running?
      ensures AlikeFrom(P, Q, t, hi, Accumulator, w, m)
    {
      MoveUpFrom(P, t, n, u, w, m);
    }
    StretchReplaced(P, Q, t, u + 1, Accumulator);
  }

  lemma SwapKeeps(P: seq<Instr>, t: nat, n: nat, u: nat)
    requires t < n < u < |P| && Blank(P, t, n) && Blank(P, n, u)
    requires P[t].op.STORE? && P[n].op.POP? && (P[u].op.ADD? || P[u].op.MUL?)
    requires CanSwap(P, u, P[t]) && P[n].dst == P[t].src
    ensures SameBehaviour(P, P[n := P[n].(dst := P[t].dst)][t := Omit(P[t])])
  {
    hide AlikeFrom, Differ, Blank, CanForward, CanMoveUp, CanPopInto, CanSwap, Known, Forward, Fold, FoldsExactly,
        Neutral;
    var Q := P[n := P[n].(dst := P[t].dst)][t := Omit(P[t])];
    SwapDiffers(P, t, n, u);
    var hi := u + 1;
    forall w: World, m: Machine | m.Valid() && m.pc == t && m.status.Running?
      ensures AlikeFrom(P, Q, t, hi, CellOf(P[t].dst).value, w, m)
    {
      SwapFrom(P, t, n, u, w, m);
    }
    StretchReplaced(P, Q, t, u + 1, CellOf(P[t].dst).value);
  }

  lemma FoldLoadKeeps(g: Guards, P: seq<Instr>, t: nat, n: nat)
    requires t < n < |P| && Blank(P, t, n) && P[t].op.LOAD? && IsMath(P[n].op)
    requires P[t].src.Imm? && P[n].src.Imm? && P[t].dst.Register? && P[n].dst == P[t].dst
    requires FoldsExactly(P[n].op, P[t].src.n, P[n].src.n)
    ensures SameBehaviour(P, P[n := Omit(P[n])][t := P[t].(src := Imm(Fold(g, P[n].op, P[t].src.n, P[n].src.n)))])
  {
    hide AlikeFrom, Differ, Blank, CanForward, CanMoveUp, CanPopInto, CanSwap, Known, Forward, Fold, FoldsExactly,
        Neutral;
    var Q := P[n := Omit(P[n])][t := P[t].(src := Imm(Fold(g, P[n].op, P[t].src.n, P[n].src.n)))];
    FoldDiffers(P, t, n, Imm(Fold(g, P[n].op, P[t].src.n, P[n].src.n)));
    var hi := n + 1;
    forall w: World, m: Machine | m.Valid() && m.pc == t && m.status.Running?
      ensures AlikeFrom(P, Q, t, hi, Accumulator, w, m)
    {
      FoldLoadFrom(g, P, t, n, w, m);
    }
    StretchReplaced(P, Q, t, n + 1, Accumulator);
  }

  lemma FoldMathKeeps(g: Guards, P: seq<Instr>, t: nat, n: nat)
    requires t < n < |P| && Blank(P, t, n) && IsMath(P[t].op) && IsMath(P[n].op)
    requires P[t].src.Imm? && P[n].src.Imm? && P[t].dst.Register? && P[n].dst == P[t].dst
    requires CombinesExactly(P[t].op, P[n].op, P[t].src.n, P[n].src.n)
    ensures SameBehaviour(P, P[n := Omit(P[n])][t := P[t].(src := Imm(Fold(g, P[t].op, P[t].src.n, P[n].src.n)))])
  {
    hide AlikeFrom, Differ, Blank, CanForward, CanMoveUp, CanPopInto, CanSwap, Known, Forward, Fold, FoldsExactly,
        Neutral;
    var Q := P[n := Omit(P[n])][t := P[t].(src := Imm(Fold(g, P[t].op, P[t].src.n, P[n].src.n)))];
    FoldDiffers(P, t, n, Imm(Fold(g, P[t].op, P[t].src.n, P[n].src.n)));
    var hi := n + 1;
    forall w: World, m: Machine | m.Valid() && m.pc == t && m.status.Running?
      ensures AlikeFrom(P, Q, t, hi, Accumulator, w, m)
    {
      FoldMathFrom(g, P, t, n, w, m);
    }
    StretchReplaced(P, Q, t, n + 1, Accumulator);
  }

  lemma PopIntoCell(P: seq<Instr>, n: nat, a: Instr)
    requires n < |P| && CanPopInto(P, n, a)
    ensures CellOf(a.dst).Some?
  {
  }

  lemma SwapDiffers(P: seq<Instr>, t: nat, n: nat, u: nat)
    requires t < n < u < |P| && Blank(P, t, n) && Blank(P, n, u)
    requires P[t].op.STORE? && P[n].op.POP? && IsMath(P[u].op) && CanSwap(P, u, P[t])
    ensures Differ(P, P[n := P[n].(dst := P[t].dst)][t := Omit(P[t])], t, u + 1) && CellOf(P[t].dst).Some?
  {
  }

  lemma FoldDiffers(P: seq<Instr>, t: nat, n: nat, o: Operand)
    requires t < n < |P| && Blank(P, t, n) && !P[t].op.NEW_LABEL? && !P[n].op.NEW_LABEL?
    ensures Differ(P, P[n := Omit(P[n])][t := P[t].(src := o)], t, n + 1)
  {
  }

  /** One instruction replaced by another with the same effect in every state. */
  lemma SingleKeeps(P: seq<Instr>, t: nat, i: Instr)
    requires t < |P| && !IsControl(P[t].op) && !IsControl(i.op) && !P[t].op.NEW_LABEL? && !i.op.NEW_LABEL?
    requires forall w: World, m: Machine :: m.Valid() ==> SameEffect(w, m, P[t], i)
    ensures SameBehaviour(P, P[t := i])
  {
    hide AlikeFrom, Differ, Effect;
    var Q := P[t := i];
    SingleDiffers(P, t, i);
    var hi := t + 1;
    forall w: World, m: Machine | m.Valid() && m.pc == t && m.status.Running?
      ensures AlikeFrom(P, Q, t, hi, Accumulator, w, m)
    {
      assert SameEffect(w, m, P[t], i);
      SingleFrom(P, t, i, w, m);
    }
    StretchReplaced(P, Q, t, t + 1, Accumulator);
  }

  ghost predicate SameEffect(w: World, m: Machine, i: Instr, j: Instr) {
    Effect(w, m, i) == Effect(w, m, j)
  }

  lemma OmitSelfMove(P: seq<Instr>, t: nat)
    requires t < |P| && IsMove(P[t].op) && Known(P[t].dst) && P[t].src == P[t].dst
    ensures SameBehaviour(P, P[t := Omit(P[t])])
  {
    hide Effect, Known;
    forall w: World, m: Machine | m.Valid()
      ensures SameEffect(w, m, P[t], Omit(P[t]))
    {
      SelfMove(w, m, P[t]);
      EffectNop(w, m, Omit(P[t]));
    }
    SingleKeeps(P, t, Omit(P[t]));
  }

  lemma OmitNeutral(P: seq<Instr>, t: nat)
    requires t < |P| && Known(P[t].dst) && P[t].src.Imm? && Neutral(P[t].op, P[t].src.n)
    requires CanDrop(P, t)
    ensures SameBehaviour(P, P[t := Omit(P[t])])
  {
    hide AlikeFrom, Differ, Effect, Known, Neutral, Dead;
    var Q := P[t := Omit(P[t])];
    NeutralOp(P[t].op, P[t].src.n);
    SingleDiffers(P, t, Omit(P[t]));
    var c, hi := Slot(REMAINDER_SLOT), t + 1;
    forall w: World, m: Machine | m.Valid() && m.pc == t && m.status.Running?
      ensures AlikeFrom(P, Q, t, hi, c, w, m)
    {
      NeutralFrom(P, t, w, m);
    }
    StretchReplaced(P, Q, t, t + 1, c);
  }

  lemma NeutralOp(op: Opcode, n: Word)
    requires Neutral(op, n)
    ensures IsMath(op)
  {
  }

  lemma NeutralFrom(P: seq<Instr>, t: nat, w: World, m: Machine)
    requires t < |P| && Known(P[t].dst) && P[t].src.Imm? && Neutral(P[t].op, P[t].src.n) && CanDrop(P, t)
    requires m.Valid() && m.pc == t && m.status.Running?
    ensures AlikeFrom(P, P[t := Omit(P[t])], t, t + 1, Slot(REMAINDER_SLOT), w, m)
  {
    hide Step, Effect, Agree, SameBut, Known, Neutral, Dead;
    var Q := P[t := Omit(P[t])];
    var c := Slot(REMAINDER_SLOT);
    NeutralOp(P[t].op, P[t].src.n);
    StepMoves(P, w, m);
    StepMoves(Q, w, m);
    OneStepMore(P, w, m, 1);
    OneStepMore(Q, w, m, 1);
    EffectNop(w, m, Q[t]);
    NeutralMath(w, m, P[t]);
    var x := Effect(w, m, P[t]);
    if P[t].op.DIV? {
      PcSame(c, x, m, t + 1);
      StepsAgree(P, t, c, x.(pc := t + 1), m.(pc := t + 1));
    } else {
      SameAgrees(P, t, t + 1, c, m.(pc := t + 1), m.(pc := t + 1));
    }
  }

  lemma StepsAgree(P: seq<Instr>, t: nat, c: Cell, x: Machine, y: Machine)
    requires SameBut(c, x, y) && x.status.Running? && x.pc == t + 1 && Dead(P, t + 1, c)
    ensures Agree(P, t, t + 1, c, x, y)
  {
    hide SameBut, Dead, Agree;
    NextAgrees(P, t, t + 1, c, x, y);
  }

  lemma MulShiftKeeps(P: seq<Instr>, t: nat)
    requires t < |P| && P[t].op.MUL? && P[t].src.Imm? && IsPowerOfTwo(Bits(P[t].src.n))
    ensures SameBehaviour(P, P[t := Instr(SHL, P[t].dst, Imm(ShiftFor(P[t].src.n)))])
  {
    hide Effect, IsPowerOfTwo, Bits;
    var i := Instr(SHL, P[t].dst, Imm(ShiftFor(P[t].src.n)));
    forall w: World, m: Machine | m.Valid()
      ensures SameEffect(w, m, P[t], i)
    {
      MulShiftMath(w, m, P[t].dst, P[t].src.n);
    }
    SingleKeeps(P, t, i);
  }

  lemma StackOperationsKeep(g: Guards, prog: seq<Instr>, index: nat)
    requires EndsInEOF(prog) && StackOperations(g, prog, index).Exact()
    ensures SameBehaviour(prog, StackOperations(g, prog, index).prog)
  {
    hide SameBehaviour, Peek, Blank, CanForward, CanMoveUp, CanPopInto, Known, Forward;
    Apart(prog, index);
    var t, n, u := Peek(prog, index, 0), Peek(prog, index, 1), Peek(prog, index, 2);
    var a, b, d := prog[t], prog[n], prog[u];
    BehaviourReflexive(prog);
    if a.op.PUSH? && b.op.POP? {
      if a.src.Register? {
        if RegistersEqual(g, a.src, b.dst) {
          KnownRegister(b.dst);
          CancelKeeps(prog, t, n);
        } else {
          MoveKeeps(prog, t, n, STORE);
        }
      } else {
        MoveKeeps(prog, t, n, LOAD);
      }
    } else if a.op.LOAD? && a.dst.Register? && b.op.PUSH? && b.src.Register? && RegistersEqual(g, a.dst, b.src)
              && !a.src.Register? {
      ForwardExact(prog, t, n);
      ForwardKeeps(prog, t, n);
    } else if a.op.PUSH? && IsMove(b.op) && d.op.POP? && !RegistersEqual(g, d.dst, b.dst) {
      MoveUpKeeps(prog, t, n, u);
    } else if a.op.POP? && IsMove(b.op) && a.dst.Register? && b.src.Register? && RegistersEqual(g, a.dst, b.src)
              && g.poppedAlike(a.dst, b.src) {
      PopIntoKeeps(prog, t, n);
    }
  }

  lemma KnownRegister(o: Operand)
    requires Known(o)
    ensures o.Register?
  {
  }

  lemma ForwardExact(P: seq<Instr>, t: nat, n: nat)
    requires t < |P| && n < |P|
    ensures Forward(P, t, n).Exact() <==> CanForward(P, n, P[t])
  {
  }

  lemma LoadsAndStoresKeep(g: Guards, prog: seq<Instr>, index: nat)
    requires EndsInEOF(prog) && LoadsAndStores(g, prog, index).Exact()
    ensures SameBehaviour(prog, LoadsAndStores(g, prog, index).prog)
  {
    hide SameBehaviour, Peek, Blank, CanForward, Known, Forward, RegistersEqual;
    Apart(prog, index);
    var t, n := Peek(prog, index, 0), Peek(prog, index, 1);
    BehaviourReflexive(prog);
    if IsMove(prog[t].op) && prog[t].dst.Register? && prog[t].src == prog[t].dst && g.movedAlike(prog[t].dst,
        prog[t].src) {
      OmitSelfMove(prog, t);
    } else if prog[t].op.LOAD? {
      ForwardExact(prog, t, n);
      if CanForward(prog, n, prog[t]) {
        ForwardKeeps(prog, t, n);
      }
    }
  }

  lemma MathOperationsKeep(g: Guards, prog: seq<Instr>, index: nat)
    requires EndsInEOF(prog) && MathOperations(g, prog, index).Exact()
    ensures SameBehaviour(prog, MathOperations(g, prog, index).prog)
  {
    hide SameBehaviour, Peek, Blank, CanForward, CanSwap, Known, Forward, RegistersEqual, IsPowerOfTwo, ShiftFor, Bits;
    Apart(prog, index);
    var t, n, u := Peek(prog, index, 0), Peek(prog, index, 1), Peek(prog, index, 2);
    var a, b, d := prog[t], prog[n], prog[u];
    BehaviourReflexive(prog);
    if (a.op.ADD? || a.op.SUB? || a.op.SHL? || a.op.SHR?) && a.src == Imm(0) {
      OmitNeutral(prog, t);
    } else if (a.op.MUL? || a.op.DIV?) && a.src == Imm(1) {
      OmitNeutral(prog, t);
    } else if (a.op.MUL? || a.op.DIV?) && a.dst.Register? && a.src.Imm? && IsPowerOfTwo(Bits(a.src.n)) {
      MulShiftKeeps(prog, t);
    } else if a.op.STORE? && b.op.POP? && a.src == b.dst && (d.op.ADD? || d.op.MUL?) && a.src.Register? {
      if CanSwap(prog, u, a) {
        SwapKeeps(prog, t, n, u);
        SwapOrder(prog, t, n);
      }
    } else if a.op.STORE? && a.src.Imm? {
      ForwardExact(prog, t, n);
      if CanForward(prog, n, a) {
        ForwardKeeps(prog, t, n);
      }
    }
  }

  lemma SwapOrder(P: seq<Instr>, t: nat, n: nat)
    requires t < n < |P|
    ensures P[n := P[n].(dst := P[t].dst)][t := Omit(P[t])] == P[t := Omit(P[t])][n := P[n].(dst := P[t].dst)]
  {
  }

  lemma ConstantFoldingKeeps(g: Guards, prog: seq<Instr>, index: nat)
    requires EndsInEOF(prog) && ConstantFolding(g, prog, index).Exact()
    ensures SameBehaviour(prog, ConstantFolding(g, prog, index).prog)
  {
    hide SameBehaviour, Peek, Blank, Fold, FoldsExactly;
    Apart(prog, index);
    var t, n := Peek(prog, index, 0), Peek(prog, index, 1);
    var a, b := prog[t], prog[n];
    BehaviourReflexive(prog);
    if a.op.LOAD? && IsMath(b.op) && a.src.Imm? && b.src.Imm? && b.dst.Register? && a.dst.Register? && a.dst == b.dst {
      FoldLoadKeeps(g, prog, t, n);
    } else if IsMath(a.op) && IsMath(b.op) && a.dst.Register? && b.dst.Register? && a.dst == b.dst
              && a.src.Imm? && b.src.Imm? {
      FoldMathKeeps(g, prog, t, n);
    }
  }

  lemma VisitKeeps(g: Guards, prog: seq<Instr>, index: nat)
    requires EndsInEOF(prog) && Visit(g, prog, index).Exact()
    ensures SameBehaviour(prog, Visit(g, prog, index).prog)
  {
    hide SameBehaviour, StackOperations, LoadsAndStores, MathOperations, ConstantFolding;
    RulesKeepShape(g, prog, index);
    var r1 := StackOperations(g, prog, index);
    RulesKeepShape(g, r1.prog, index);
    var r2 := LoadsAndStores(g, r1.prog, index);
    RulesKeepShape(g, r2.prog, index);
    var r3 := MathOperations(g, r2.prog, index);
    RulesKeepShape(g, r3.prog, index);
    var r4 := ConstantFolding(g, r3.prog, index);
    StackOperationsKeep(g, prog, index);
    LoadsAndStoresKeep(g, r1.prog, index);
    MathOperationsKeep(g, r2.prog, index);
    ConstantFoldingKeeps(g, r3.prog, index);
    BehaviourTransitive(prog, r1.prog, r2.prog);
    BehaviourTransitive(prog, r2.prog, r3.prog);
    BehaviourTransitive(prog, r3.prog, r4.prog);
  }

  lemma {:induction false} VisitAllKeeps(oracle: Oracle, pass: nat, prog: seq<Instr>, count: nat)
    requires EndsInEOF(prog) && VisitAll(oracle, pass, prog, count).Exact()
    ensures SameBehaviour(prog, VisitAll(oracle, pass, prog, count).prog)
    decreases count
  {
    hide SameBehaviour, Visit;
    if count == 0 {
      BehaviourReflexive(prog);
    } else {
      var before := VisitAll(oracle, pass, prog, count - 1);
      var g := oracle(pass, count - 1);
      VisitAllKeeps(oracle, pass, prog, count - 1);
      VisitKeeps(g, before.prog, count - 1);
      BehaviourTransitive(prog, before.prog, Visit(g, before.prog, count - 1).prog);
    }
  }

  lemma {:induction false} PassesKeep(oracle: Oracle, prog: seq<Instr>, count: nat)
    requires EndsInEOF(prog) && Passes(oracle, prog, count).Exact()
    ensures SameBehaviour(prog, Passes(oracle, prog, count).prog)
    decreases count
  {
    hide SameBehaviour, VisitAll;
    if count == 0 {
      BehaviourReflexive(prog);
    } else {
      var before := Passes(oracle, prog, count - 1);
      PassesKeep(oracle, prog, count - 1);
      VisitAllKeeps(oracle, count - 1, before.prog, |before.prog|);
      BehaviourTransitive(prog, before.prog, VisitAll(oracle, count - 1, before.prog, |before.prog|).prog);
    }
  }

  /** Three passes over any program with jumps keep its behaviour when every rewrite they make meets
      its static side condition. */
  lemma OptimizerKeepsBehaviour(oracle: Oracle, prog: seq<Instr>)
    requires EndsInEOF(prog) && Optimized(oracle, prog).Exact()
    ensures SameBehaviour(prog, Optimized(oracle, prog).prog)
  {
    hide SameBehaviour, Passes;
    PassesKeep(oracle, prog, PASS_COUNT);
  }
}
