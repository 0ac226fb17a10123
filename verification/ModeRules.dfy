/** Every rule of the optimizer leaves typed code typed, and in typed code its side conditions hold. */
module ModeRules {
  import opened Words
  import opened WordAlgebra
  import opened Lir
  import opened Liveness
  import opened Optimizing
  import opened Modes

  // ----- Windows -----

  lemma {:induction false} BlankLe(prog: seq<Instr>, states: seq<State>, labels: Labelling, terms: Terms,
                                   t: nat, n: nat)
    requires Typed(prog, states, labels, terms) && t < n < |prog| && Blank(prog, t, n)
    ensures Le(states[t + 1], states[n])
    decreases n
  {
    hide Le;
    if n == t + 1 {
      LeReflexive(states[n]);
    } else {
      BlankLe(prog, states, labels, terms, t, n - 1);
      assert FitsAt(prog, states, labels, terms, n - 1);
      LeTransitive(states[t + 1], states[n - 1], states[n]);
    }
  }

  lemma BlankFits(s: State, i: Instr, labels: Labelling, terms: Terms)
    requires i.op.NOP?
    ensures Fits(i, s, s, labels, terms)
  {
    hide After, BranchFits, CallFits;
    LeReflexive(s);
  }

  /** One instruction replaced by another between the same states. */
  lemma Retyped1(prog: seq<Instr>, states: seq<State>, labels: Labelling, terms: Terms, t: nat, a: Instr)
    requires TypedFromStart(prog, states, labels, terms) && t < |prog|
    requires Fits(a, states[t], states[t + 1], labels, terms)
    ensures WellTyped(prog[t := a], terms)
  {
    hide Fits;
    var after := prog[t := a];
    forall k | 0 <= k < |after|
      ensures FitsAt(after, states, labels, terms, k)
    {
      assert FitsAt(prog, states, labels, terms, k);
    }
    assert TypedFromStart(after, states, labels, terms);
  }

  /** A window of two with a new state in its middle. */
  lemma Retyped2(prog: seq<Instr>, states: seq<State>, labels: Labelling, terms: Terms, t: nat, n: nat,
                 a: Instr, b: Instr, mid: State)
    requires TypedFromStart(prog, states, labels, terms) && t < n < |prog| && Blank(prog, t, n)
    requires Fits(a, states[t], mid, labels, terms) && Fits(b, mid, states[n + 1], labels, terms)
    ensures WellTyped(prog[t := a][n := b], terms)
  {
    hide Fits;
    var after := prog[t := a][n := b];
    var states' := states[..t + 1] + seq(n - t, i => mid) + states[n + 1..];
    forall k | 0 <= k < |after|
      ensures FitsAt(after, states', labels, terms, k)
    {
      assert FitsAt(prog, states, labels, terms, k);
      if t < k < n {
        BlankFits(mid, prog[k], labels, terms);
      }
    }
    assert TypedFromStart(after, states', labels, terms);
  }

  /** A window of three with two new states. */
  lemma Retyped3(prog: seq<Instr>, states: seq<State>, labels: Labelling, terms: Terms, t: nat, n: nat, u: nat,
                 a: Instr, b: Instr, d: Instr, mid: State, mid': State)
    requires TypedFromStart(prog, states, labels, terms) && t < n < u < |prog|
    requires Blank(prog, t, n) && Blank(prog, n, u)
    requires Fits(a, states[t], mid, labels, terms) && Fits(b, mid, mid', labels, terms)
    requires Fits(d, mid', states[u + 1], labels, terms)
    ensures WellTyped(prog[t := a][n := b][u := d], terms)
  {
    hide Fits;
    var after := prog[t := a][n := b][u := d];
    var states' := states[..t + 1] + seq(n - t, i => mid) + seq(u - n, i => mid') + states[u + 1..];
    forall k | 0 <= k < |after|
      ensures FitsAt(after, states', labels, terms, k)
    {
      assert FitsAt(prog, states, labels, terms, k);
      if t < k < n {
        BlankFits(mid, prog[k], labels, terms);
      } else if n < k < u {
        BlankFits(mid', prog[k], labels, terms);
      }
    }
    assert TypedFromStart(after, states', labels, terms);
  }

  // ----- Dead after an instruction -----

  /** On every way out of the instruction the register does not matter. */
  predicate ExitsDead(i: Instr, s': State, labels: Labelling, c: Cell) {
    if i.op.JMP? || i.op.JMP_TRUE? || i.op.JMP_FALSE? then
      && (i.dst.Label? && i.dst.id in labels ==> !Live(labels[i.dst.id].mode, c))
      && (i.op.JMP? || !Live(s'.mode, c))
    else if i.op.RETURN? || i.op.END_FUNC? || i.op.EOF? then true
    else Overwrites(i, c) || !Live(s'.mode, c)
  }

  lemma PastByMode(prog: seq<Instr>, states: seq<State>, labels: Labelling, terms: Terms, k: nat, c: Cell)
    requires Typed(prog, states, labels, terms) && k < |prog| && ExitsDead(prog[k], states[k + 1], labels, c)
    ensures DeadPast(prog, k, c)
  {
    hide Typed, Live, Dead, DeadPast, Overwrites, FitsAt, Find;
    var i := prog[k];
    LengthOf(prog, states, labels, terms);
    if i.op.JMP? || i.op.JMP_TRUE? || i.op.JMP_FALSE? {
      LabelOf(prog, states, labels, terms, k);
      LabelDead(prog, states, labels, terms, i.dst.id, c);
      if !i.op.JMP? {
        ModeDead(prog, states, labels, terms, k + 1, c);
      }
      DeadAfterJump(prog, k, c);
    } else if i.op.RETURN? || i.op.END_FUNC? || i.op.EOF? {
      NothingPast(prog, k, c);
    } else {
      if !Overwrites(i, c) {
        ModeDead(prog, states, labels, terms, k + 1, c);
      }
      DeadOnward(prog, k, c);
    }
  }

  lemma LengthOf(prog: seq<Instr>, states: seq<State>, labels: Labelling, terms: Terms)
    requires Typed(prog, states, labels, terms)
    ensures |states| == |prog| + 1
  {
  }

  lemma LabelOf(prog: seq<Instr>, states: seq<State>, labels: Labelling, terms: Terms, k: nat)
    requires Typed(prog, states, labels, terms) && k < |prog|
    requires prog[k].op.JMP? || prog[k].op.JMP_TRUE? || prog[k].op.JMP_FALSE?
    ensures prog[k].dst.Label? && prog[k].dst.id in labels
  {
    hide After, CallFits, Le, Reaches;
    assert FitsAt(prog, states, labels, terms, k);
  }

  lemma LabelDead(prog: seq<Instr>, states: seq<State>, labels: Labelling, terms: Terms, id: nat, c: Cell)
    requires Typed(prog, states, labels, terms) && id in labels && !Live(labels[id].mode, c)
    ensures Dead(prog, Find(prog, id), c)
  {
    hide Typed, Live, Find, DeadFor;
    var k := Find(prog, id);
    forall n: nat
      ensures DeadFor(prog, k, c, n)
    {
      DeadAtLabel(prog, states, labels, terms, id, c, n);
    }
  }

  lemma NothingPast(prog: seq<Instr>, k: nat, c: Cell)
    requires k < |prog| && (prog[k].op.RETURN? || prog[k].op.END_FUNC? || prog[k].op.EOF?)
    ensures DeadPast(prog, k, c)
  {
  }

  // ----- Forwarding -----

  /** The first instruction loads a register, the second one reads it. */
  predicate Feeds(a: Instr, b: Instr, s: State, s': State) {
    && IsMove(a.op) && (a.dst == T1 || a.dst == T2) && b.src == a.dst && !a.src.Nothing?
    && Moved(a, s).Some? && Le(Moved(a, s).value, s')
  }

  lemma FeedMove(a: Instr, b: Instr, s: State, s': State)
    requires Feeds(a, b, s, s') && IsMove(b.op) && Moved(b, s').Some?
    ensures a.dst == T1 && Moved(b.(src := a.src), s).Some? && Le(Moved(b.(src := a.src), s).value, Moved(b, s').value)
    ensures b.dst == T1 || !Live(Moved(b, s').value.mode, Accumulator)
  {
    hide BelowLe, OperandKind, IsPlace;
  }

  lemma FeedPush(a: Instr, b: Instr, s: State, s': State)
    requires Feeds(a, b, s, s') && b.op.PUSH? && PushOf(b.src, s').Some?
    ensures a.dst == T1 && PushOf(a.src, s).Some? && Le(PushOf(a.src, s).value, PushOf(b.src, s').value)
    ensures !Live(PushOf(b.src, s').value.mode, Accumulator)
  {
    hide OperandKind;
  }

  lemma FeedOperate(a: Instr, b: Instr, s: State, s': State)
    requires Feeds(a, b, s, s') && IsMath(b.op) && Operate(b, s').Some?
    ensures a.dst == T2 && Operate(b.(src := a.src), s).Some?
    ensures Le(Operate(b.(src := a.src), s).value, Operate(b, s').value)
    ensures !Live(Operate(b, s').value.mode, Slot(T2_SLOT))
    ensures ArithmeticFits(b, s') ==> ArithmeticFits(b.(src := a.src), s)
  {
    hide BelowLe, OperationKind, OperationOk;
    KindsGrow(b.op, KindAtOr(s.mode), OperandKind(a.src), if s'.mode.Both? then s'.mode.first else Fresh,
              if s'.mode.Both? then s'.mode.second else Fresh);
  }

  function KindAtOr(m: Mode): Kind {
    if AsValue(m) then KindAt(m) else Fresh
  }

  /** Less certain kinds give less certain results and allow less. */
  lemma KindsGrow(op: Opcode, a: Kind, b: Kind, a': Kind, b': Kind)
    ensures KindLe(a, a') && KindLe(b, b') ==> KindLe(OperationKind(op, a, b), OperationKind(op, a', b'))
    ensures KindLe(a, a') && KindLe(b, b') && OperationOk(op, a', b') ==> OperationOk(op, a, b)
  {
    hide IsPowerOfTwo, Bits;
  }

  lemma FeedCompare(a: Instr, b: Instr, s: State, s': State)
    requires Feeds(a, b, s, s') && b.op.COMPARE? && Compare(b, s').Some?
    ensures a.dst == T2 && Compare(b.(src := a.src), s).Some?
    ensures Le(Compare(b.(src := a.src), s).value, Compare(b, s').value)
    ensures !Live(Compare(b, s').value.mode, Slot(T2_SLOT))
  {
    hide BelowLe, OperandKind;
  }

  lemma FeedBranch(a: Instr, b: Instr, s: State, s': State, s'': State, labels: Labelling)
    requires Feeds(a, b, s, s') && (b.op.JMP_TRUE? || b.op.JMP_FALSE?) && BranchFits(b, s', s'', labels)
    ensures a.dst == T1 && BranchFits(b.(src := a.src), s, s'', labels)
    ensures ExitsDead(b, s'', labels, Accumulator)
  {
    hide OperandKind;
    FeedModes(a, s, s');
  }

  /** What is in the first temporary is a value, or an argument to be. */
  lemma FeedModes(a: Instr, s: State, s': State)
    requires IsMove(a.op) && (a.dst == T1 || a.dst == T2) && Moved(a, s).Some? && Le(Moved(a, s).value, s')
    requires !a.src.Nothing?
    ensures !AsFree(s'.mode) && !s'.mode.Joined? && !s'.mode.Compared? && !s'.mode.Zeroed? && !s.mode.Zeroed?
    ensures !s'.mode.Flag? && !s'.mode.FlagBoth? && !s'.mode.Pushed?
    ensures BelowLe(s.below, s'.below) && (s'.mode.Args? ==> s'.mode.loaded)
    ensures a.dst == T1 ==> FromFirst(a.src) || Quiet(a.src)
    ensures a.dst == T2 ==> FromFirst(a.src) || Quiet(a.src)
    ensures a.dst == T1 && s'.mode.Value? ==> if FromFirst(a.src) then AsValue(s.mode) else AsFree(s.mode)
  {
    hide OperandKind, BelowLe;
  }

  lemma FeedReturn(a: Instr, b: Instr, s: State, s': State, s'': State, labels: Labelling, terms: Terms)
    requires Feeds(a, b, s, s') && b.op.RETURN? && Fits(b, s', s'', labels, terms)
    ensures Fits(b.(src := a.src), s, s'', labels, terms)
  {
    hide OperandKind, BelowLe, Moved;
    FeedModes(a, s, s');
  }

  /** The instructions that read a register as their source. */
  predicate ReadsRegister(op: Opcode) {
    IsMove(op) || op.PUSH? || IsMath(op) || op.COMPARE? || op.JMP_TRUE? || op.JMP_FALSE? || op.RETURN?
  }

  lemma FeedsReaders(a: Instr, b: Instr, s: State, s': State, s'': State, labels: Labelling, terms: Terms)
    requires Feeds(a, b, s, s') && !b.op.NOP? && !b.op.EOF? && !IsSet(b.op) && Fits(b, s', s'', labels, terms)
    ensures ReadsRegister(b.op)
  {
    hide OperandKind, BelowLe, Moved;
    FeedModes(a, s, s');
  }

  lemma SetNotFed(a: Instr, b: Instr, s: State, s': State, s'': State, labels: Labelling, terms: Terms)
    requires Feeds(a, b, s, s') && Fits(b, s', s'', labels, terms)
    ensures !IsSet(b.op)
  {
    hide OperandKind, BelowLe, Moved;
    FeedModes(a, s, s');
  }

  lemma FeedsAny(a: Instr, b: Instr, s: State, s': State, s'': State, labels: Labelling, terms: Terms)
    requires Feeds(a, b, s, s') && !b.op.NOP? && !b.op.EOF? && Fits(b, s', s'', labels, terms)
    ensures ReadsRegister(b.op) && Fits(b.(src := a.src), s, s'', labels, terms)
    ensures ExitsDead(b, s'', labels, CellOf(a.dst).value)
    ensures ReadsDestination(b.op) ==> a.dst == T2 && b.dst == T1
  {
    hide Moved, PushOf, Operate, Compare, BranchFits, Le, Live, Feeds, ArithmeticFits, Overwrites;
    FeedsDst(a, b, s, s');
    SetNotFed(a, b, s, s', s'', labels, terms);
    FeedsReaders(a, b, s, s', s'', labels, terms);
    if IsMove(b.op) {
      FeedMove(a, b, s, s');
      FedOn(b.(src := a.src), b, s, s', s'');
      if b.dst == T1 {
        MovedOver(b);
      }
    } else if b.op.PUSH? {
      FeedPush(a, b, s, s');
      FedOn(b.(src := a.src), b, s, s', s'');
    } else if IsMath(b.op) {
      FeedOperate(a, b, s, s');
      FedOn(b.(src := a.src), b, s, s', s'');
    } else if b.op.COMPARE? {
      FeedCompare(a, b, s, s');
      FedOn(b.(src := a.src), b, s, s', s'');
    } else if b.op.RETURN? {
      FeedReturn(a, b, s, s', s'', labels, terms);
    } else {
      FeedBranch(a, b, s, s', s'', labels);
    }
    if IsMath(b.op) || b.op.COMPARE? {
      FeedsMathDst(b, s', s'', labels, terms);
    }
  }

  lemma FeedsDst(a: Instr, b: Instr, s: State, s': State)
    requires Feeds(a, b, s, s')
    ensures (a.dst == T1 || a.dst == T2) && b.src == a.dst && CellOf(a.dst).Some?
    ensures CellOf(a.dst).value == if a.dst == T1 then Accumulator else Slot(T2_SLOT)
    ensures !s.mode.Zeroed?
  {
    hide Moved, Le;
    FeedModes(a, s, s');
  }

  lemma MovedOver(b: Instr)
    requires IsMove(b.op) && b.dst == T1
    ensures Overwrites(b, Accumulator)
  {
  }

  lemma FeedsMathDst(b: Instr, s': State, s'': State, labels: Labelling, terms: Terms)
    requires (IsMath(b.op) || b.op.COMPARE?) && Fits(b, s', s'', labels, terms)
    ensures b.dst == T1
  {
  }

  /** The second instruction, reading the other operand, ends in what the next one expects. */
  lemma FedOn(b': Instr, b: Instr, s: State, s': State, s'': State)
    requires After(b', s).Some? && After(b, s').Some? && Le(After(b', s).value, After(b, s').value)
    requires Le(After(b, s').value, s'')
    ensures Le(After(b', s).value, s'')
    ensures forall c: Cell :: !Live(After(b, s').value.mode, c) ==> !Live(s''.mode, c)
  {
    hide After, Le, Live;
    LeTransitive(After(b', s).value, After(b, s').value, s'');
    forall c: Cell | !Live(After(b, s').value.mode, c)
      ensures !Live(s''.mode, c)
    {
      LeDead(After(b, s').value, s'', c);
    }
  }

  // ----- The rules on pushes and pops -----

  /** Registers are compared without a look at the kind of the other operand. Locals do not look like
      registers, constants not like temporaries, and arguments only where they are alone. */
  ghost predicate Distinct(g: Guards) {
    forall r: Operand, o: Operand :: r.Register? && Unlike(r, o) ==> !g.samePayload(r, o) && !g.samePayload(o, r)
  }

  /** The empty value loaded for one of these locals has another type than the local has. */
  predicate KeepsEmpty(g: Guards, empty: set<nat>) {
    forall x :: x in empty ==> !g.loadedAlike(Nothing, Local(x))
  }

  predicate Unlike(r: Operand, o: Operand)
    requires r.Register?
  {
    o.Local? || (o.Argument? && !Lone(o)) || (o.Imm? && r.temporary)
  }

  lemma PushPopFits(a: Operand, d: Operand, s: State, s': State, op: Opcode)
    requires PushOf(a, s).Some? && Le(PushOf(a, s).value, s') && PopTo(d, s').Some? && IsMove(op)
    ensures Moved(Instr(op, d, a), s).Some? && Le(Moved(Instr(op, d, a), s).value, PopTo(d, s').value)
    ensures FromFirst(a) && d == T1 ==> Le(s, PopTo(d, s').value)
    ensures d.Register? ==> d == T1 || d == T2
    ensures a.Register? ==> FromFirst(a)
    ensures !OnStack(d)
  {
    hide OperandKind, KindLe;
    PushedTop(a, s, s');
  }

  /** What was pushed is on top. */
  lemma PushedTop(a: Operand, s: State, s': State)
    requires PushOf(a, s).Some? && Le(PushOf(a, s).value, s')
    ensures s'.mode.Pushed? || s'.mode.Free?
    ensures s'.below != []
    ensures var n := |s'.below| - 1;
      && n == |s.below| && BelowLe(s.below, s'.below[..n])
      && KindLe(if FromFirst(a) then KindAtOr(s.mode) else OperandKind(a), s'.below[n])
  {
    hide OperandKind, KindLe;
    var e := PushOf(a, s).value;
    var n := |s.below|;
    assert forall i :: 0 <= i < n ==> e.below[i] == s.below[i];
    assert KindLe(e.below[n], s'.below[n]);
  }

  lemma MoveUpFits(a: Operand, b: Instr, d: Operand, s: State, s1: State, s2: State)
    requires PushOf(a, s).Some? && Le(PushOf(a, s).value, s1) && IsMove(b.op)
    requires Moved(b, s1).Some? && Le(Moved(b, s1).value, s2) && PopTo(d, s2).Some?
    ensures var load := Instr(LOAD, d, a);
      && Moved(load, s).Some? && Moved(b, Moved(load, s).value).Some?
      && Le(Moved(b, Moved(load, s).value).value, PopTo(d, s2).value)
    ensures !s.mode.Zeroed? && !Moved(Instr(LOAD, d, a), s).value.mode.Zeroed?
    ensures CanMoveUp(b, Instr(POP, d, Nothing))
  {
    hide OperandKind, KindLe, BelowLe;
    PushedTop(a, s, s1);
    KeepsBelow(b, s1, s2);
    TopsLe(s, s1, s2);
    MovedFromPush(b, s1, s2, d);
    MoveUpCases(a, b, d, s, s1, s2);
  }

  lemma KeepsBelow(b: Instr, s1: State, s2: State)
    requires IsMove(b.op) && Moved(b, s1).Some? && Le(Moved(b, s1).value, s2)
    ensures BelowLe(s1.below, s2.below)
  {
    hide BelowLe, OperandKind;
  }

  lemma KindLeTransitive(a: Kind, b: Kind, c: Kind)
    requires KindLe(a, b) && KindLe(b, c)
    ensures KindLe(a, c)
  {
  }

  lemma TopsLe(s: State, s1: State, s2: State)
    requires s1.below != [] && BelowLe(s1.below, s2.below)
    requires |s1.below| == |s.below| + 1 && BelowLe(s.below, s1.below[..|s1.below| - 1])
    ensures s2.below != [] && |s2.below| == |s1.below|
    ensures KindLe(s1.below[|s1.below| - 1], s2.below[|s2.below| - 1])
    ensures BelowLe(s.below, s2.below[..|s2.below| - 1])
  {
    hide KindLe;
    forall i | 0 <= i < |s.below|
      ensures KindLe(s.below[i], s2.below[i])
    {
      assert KindLe(s.below[i], s1.below[..|s1.below| - 1][i]) && KindLe(s1.below[i], s2.below[i]);
      KindLeTransitive(s.below[i], s1.below[i], s2.below[i]);
    }
  }

  /** Moves that may come between a push and a pop. */
  lemma MovedFromPush(b: Instr, s1: State, s2: State, d: Operand)
    requires (s1.mode.Pushed? || s1.mode.Free?) && IsMove(b.op)
    requires Moved(b, s1).Some? && Le(Moved(b, s1).value, s2) && PopTo(d, s2).Some?
    ensures Quiet(b.src)
    ensures || (b.dst == T1 && d == T2 && s2.mode.Value? && KindLe(OperandKind(b.src), s2.mode.kind))
            || (b.dst == T2 && d == T1 && s2.mode.Second? && KindLe(OperandKind(b.src), s2.mode.kind))
            || (IsPlace(b.dst) && !Lone(b.dst) && s2.mode == Args({b.dst.intsPassed}, false)
                && (d == T1 || (IsPlace(d) && !Lone(d) && d.intsPassed != b.dst.intsPassed)))
  {
    hide OperandKind, BelowLe;
  }

  lemma MoveUpCases(a: Operand, b: Instr, d: Operand, s: State, s1: State, s2: State)
    requires PushOf(a, s).Some? && IsMove(b.op) && Quiet(b.src) && s2.below != []
    requires s1.below != [] && |s2.below| == |s1.below| && BelowLe(s.below, s2.below[..|s2.below| - 1])
    requires KindLe(if FromFirst(a) then KindAtOr(s.mode) else OperandKind(a), s1.below[|s1.below| - 1])
    requires KindLe(s1.below[|s1.below| - 1], s2.below[|s2.below| - 1])
    requires || (b.dst == T1 && d == T2 && s2.mode.Value? && KindLe(OperandKind(b.src), s2.mode.kind))
             || (b.dst == T2 && d == T1 && s2.mode.Second? && KindLe(OperandKind(b.src), s2.mode.kind))
             || (IsPlace(b.dst) && !Lone(b.dst) && s2.mode == Args({b.dst.intsPassed}, false)
                 && (d == T1 || (IsPlace(d) && !Lone(d) && d.intsPassed != b.dst.intsPassed)))
    ensures var load := Instr(LOAD, d, a);
      && Moved(load, s).Some? && Moved(b, Moved(load, s).value).Some?
      && PopTo(d, s2).Some? && Le(Moved(b, Moved(load, s).value).value, PopTo(d, s2).value)
    ensures !s.mode.Zeroed? && !Moved(Instr(LOAD, d, a), s).value.mode.Zeroed?
    ensures CanMoveUp(b, Instr(POP, d, Nothing))
  {
    hide OperandKind, KindLe, BelowLe;
    KindLeTransitive(if FromFirst(a) then KindAtOr(s.mode) else OperandKind(a), s1.below[|s1.below| - 1],
                     s2.below[|s2.below| - 1]);
    if IsPlace(b.dst) && IsPlace(d) {
      assert {d.intsPassed} + {b.dst.intsPassed} == {b.dst.intsPassed} + {d.intsPassed};
    }
  }

  lemma PopIntoFits(a: Operand, b: Instr, s: State, s': State)
    requires a.Register? && PopTo(a, s).Some? && Le(PopTo(a, s).value, s') && IsMove(b.op) && b.src == a
    requires Moved(b, s').Some? && !Lone(b.dst) && !b.dst.Local?
    ensures a == T1 && (s.mode.Pushed? || s.mode.Args?) && !OnStack(b.dst)
    ensures PopTo(b.dst, s).Some? && Le(PopTo(b.dst, s).value, Moved(b, s').value)
    ensures b.dst == T1 || !Live(Moved(b, s').value.mode, Accumulator)
  {
    hide OperandKind, BelowLe;
  }

  // ----- The rules on operations -----

  /** Operands of an addition or multiplication may change places. */
  lemma KindsCommute(op: Opcode, a: Kind, b: Kind)
    requires op.ADD? || op.MUL?
    ensures OperationKind(op, a, b) == OperationKind(op, b, a) && OperationOk(op, a, b) == OperationOk(op, b, a)
  {
  }

  /** store t2, t1; pop t1; operate, and pop t2; operate. */
  lemma SwapFits(d: Instr, s: State, s1: State, s2: State)
    requires AsValue(s.mode) && Le(With(s, Second(KindAt(s.mode))), s1)
    requires PopTo(T1, s1).Some? && Le(PopTo(T1, s1).value, s2)
    requires (d.op.ADD? || d.op.MUL?) && d.dst == T1 && d.src == T2 && Operate(d, s2).Some?
    ensures var m := With(s, Value(KindAt(s.mode)));
      && Le(s, m) && PopTo(T2, m).Some? && Operate(d, PopTo(T2, m).value).Some?
      && Le(Operate(d, PopTo(T2, m).value).value, Operate(d, s2).value)
      && (ArithmeticFits(d, s2) ==> ArithmeticFits(d, PopTo(T2, m).value))
    ensures s1.mode.Second? && Operate(d, s2).value.mode.Value?
  {
    hide OperationKind, OperationOk, KindLe;
    LeReflexive(s);
    KindReflexive(KindAt(s.mode));
    SecondBelow(s, s1, s2);
    var k, top := KindAt(s.mode), s.below[|s.below| - 1];
    KindsCommute(d.op, k, top);
    KindsGrow(d.op, top, k, s2.mode.first, s2.mode.second);
    BelowRest(s, s1, s2);
  }

  lemma KindReflexive(k: Kind)
    ensures KindLe(k, k)
  {
  }

  lemma SecondBelow(s: State, s1: State, s2: State)
    requires AsValue(s.mode) && Le(With(s, Second(KindAt(s.mode))), s1)
    requires PopTo(T1, s1).Some? && Le(PopTo(T1, s1).value, s2)
    ensures s.below != [] && s1.mode.Second? && s2.mode.Both?
    ensures KindLe(s.below[|s.below| - 1], s2.mode.first) && KindLe(KindAt(s.mode), s2.mode.second)
  {
    hide KindLe;
    var n := |s.below| - 1;
    if n >= 0 {
      assert KindLe(s.below[n], s1.below[n]);
      KindLeTransitive(s.below[n], s1.below[n], s2.mode.first);
    }
    KindLeTransitive(KindAt(s.mode), s1.mode.kind, s2.mode.second);
  }

  lemma BelowRest(s: State, s1: State, s2: State)
    requires s.below != [] && BelowLe(s.below, s1.below) && BelowLe(s1.below[..|s1.below| - 1], s2.below)
    ensures BelowLe(s.below[..|s.below| - 1], s2.below)
  {
    hide KindLe;
    forall i | 0 <= i < |s.below| - 1
      ensures KindLe(s.below[i], s2.below[i])
    {
      assert KindLe(s1.below[..|s1.below| - 1][i], s2.below[i]) && KindLe(s.below[i], s1.below[i]);
      KindLeTransitive(s.below[i], s1.below[i], s2.below[i]);
    }
  }

  /** Without its constant operation a value is no less certain. */
  lemma OmitFits(i: Instr, s: State)
    requires IsMath(i.op) && i.src.Imm? && Operate(i, s).Some?
    ensures i.dst == T1 && AsValue(s.mode) && Le(s, Operate(i, s).value) && Operate(i, s).value.mode.Value?
  {
  }

  lemma ShiftFits(i: Instr, s: State, k: Word)
    requires (i.op.MUL? || i.op.DIV?) && i.src.Imm? && Operate(i, s).Some?
    ensures var j := Instr(if i.op.MUL? then SHL else SHR, i.dst, Imm(k));
      && Operate(j, s) == Operate(i, s)
      && (ArithmeticFits(i, s) && i.op.MUL? ==> ArithmeticFits(j, s))
    ensures ArithmeticFits(i, s) && i.op.DIV? ==> i.src.n == 1 || !IsPowerOfTwo(Bits(i.src.n))
  {
    hide IsPowerOfTwo, Bits;
  }

  /** What these make of constants is no larger than the constants are together. */
  predicate KeepsSmall(op: Opcode) {
    op.ADD? || op.SUB? || IsBitwise(op)
  }

  /** A loaded constant and an operation with another one. */
  lemma FoldLoadFits(a: Instr, b: Instr, s: State, s1: State, z: Word)
    requires a.op.LOAD? && a.dst == T1 && a.src.Imm? && Moved(a, s).Some? && Le(Moved(a, s).value, s1)
    requires IsMath(b.op) && b.src.Imm? && Operate(b, s1).Some?
    ensures var i := a.(src := Imm(z));
      && Moved(i, s).Some? && Le(Moved(i, s).value, Operate(b, s1).value) && Operate(b, s1).value.mode.Value?
    ensures !s.mode.Zeroed? && (ArithmeticFits(b, s1) ==> KeepsSmall(b.op))
  {
    hide BelowLe;
  }

  lemma FoldKinds(first: Opcode, second: Opcode, k: Kind, x: Word, y: Word, z: Word, k1: Kind)
    requires KindLe(OperationKind(first, k, Constant(x)), k1)
    ensures OperationKind(first, k, Constant(z)) == OperationKind(first, k, Constant(x))
    ensures KindLe(OperationKind(first, k, Constant(z)), OperationKind(second, k1, Constant(y)))
    ensures OperationOk(second, k1, Constant(y)) ==>
      KeepsSmall(first) && (if IsBitwise(first) then second == first else second.ADD?)
    ensures KeepsSmall(first) && OperationOk(first, k, Constant(x)) ==> OperationOk(first, k, Constant(z))
  {
  }

  /** Two operations with constants. */
  lemma FoldMathFits(a: Instr, b: Instr, s: State, s1: State, z: Word)
    requires IsMath(a.op) && a.src.Imm? && Operate(a, s).Some? && Le(Operate(a, s).value, s1)
    requires IsMath(b.op) && b.src.Imm? && Operate(b, s1).Some?
    ensures var i := a.(src := Imm(z));
      && Operate(i, s).Some? && Le(Operate(i, s).value, Operate(b, s1).value) && Operate(b, s1).value.mode.Value?
      && (ArithmeticFits(a, s) && KeepsSmall(a.op) ==> ArithmeticFits(i, s))
    ensures ArithmeticFits(b, s1) ==>
      KeepsSmall(a.op) && (if IsBitwise(a.op) then b.op == a.op else b.op.ADD?)
  {
    hide BelowLe, OperationKind, OperationOk, KindLe;
    FoldKinds(a.op, b.op, KindAtOr(s.mode), a.src.n, b.src.n, z, KindAtOr(s1.mode));
  }

  // ----- Constants in a program -----

  function Magnitude(x: int): nat {
    if x < 0 then 0 - x else x
  }

  /** The constant an instruction works with. */
  function Weight(i: Instr): nat {
    if !i.op.NOP? && i.src.Imm? then Magnitude(i.src.n) else 0
  }

  /** The sum of all constants of a program, without their signs. */
  function TotalWeight(prog: seq<Instr>): nat {
    if prog == [] then 0 else Weight(prog[0]) + TotalWeight(prog[1..])
  }

  lemma {:induction false} WeightReplaced(prog: seq<Instr>, t: nat, a: Instr)
    requires t < |prog|
    ensures TotalWeight(prog[t := a]) + Weight(prog[t]) == TotalWeight(prog) + Weight(a)
    decreases |prog|
  {
    hide Weight;
    if t == 0 {
      assert prog[t := a][1..] == prog[1..];
    } else {
      WeightReplaced(prog[1..], t - 1, a);
      assert prog[t := a][1..] == prog[1..][t - 1 := a];
    }
  }

  lemma WeightOfTwo(prog: seq<Instr>, t: nat, n: nat, a: Instr, b: Instr)
    requires t < |prog| && n < |prog| && t != n
    ensures TotalWeight(prog[t := a][n := b]) + Weight(prog[t]) + Weight(prog[n])
      == TotalWeight(prog) + Weight(a) + Weight(b)
    ensures Weight(prog[t]) + Weight(prog[n]) <= TotalWeight(prog)
  {
    hide Weight, TotalWeight;
    WeightReplaced(prog, t, a);
    WeightReplaced(prog[t := a], n, b);
    var none := Instr(NOP, Nothing, Nothing);
    NoWeight(none);
    WeightReplaced(prog, t, none);
    WeightReplaced(prog[t := none], n, none);
  }

  lemma NoWeight(i: Instr)
    requires i.op.NOP?
    ensures Weight(i) == 0
  {
  }

  lemma {:induction false} ShiftIsLess(k: nat)
    ensures k < Pow2(k)
    decreases k
  {
    if k > 0 {
      ShiftIsLess(k - 1);
    }
  }

  lemma ShiftWeight(n: Word)
    requires IsPowerOfTwo(Bits(n))
    ensures Magnitude(ShiftFor(n)) <= Magnitude(n)
  {
    hide IsPowerOfTwo;
    var k := ShiftFor(n);
    ShiftIsLess(k);
    if n < 0 && k > 0 {
      NegativePower(n, k);
    }
  }

  // ----- The invariant -----

  const MOST: int := 0x20_0000_0000_0000

  /** The program is typed, and where arithmetic counts its constants together fit a double. */
  ghost predicate Sound(prog: seq<Instr>, terms: Terms) {
    WellTyped(prog, terms) && (terms.checked ==> TotalWeight(prog) <= MOST)
  }

  /** What a rule must do: its rewrite is safe, right where arithmetic counts, and keeps the program sound. */
  ghost predicate KeepsSound(prog: seq<Instr>, r: Rewritten, terms: Terms) {
    r.safe && (terms.checked ==> r.right) && Sound(r.prog, terms)
  }

  lemma Unchanged(prog: seq<Instr>, terms: Terms)
    requires Sound(prog, terms)
    ensures KeepsSound(prog, Rewritten(prog, true, true), terms)
  {
  }

  lemma OmitWeight(i: Instr)
    ensures Weight(Omit(i)) == 0
  {
  }

  /** A window of two typed instructions. */
  ghost predicate Pair(prog: seq<Instr>, states: seq<State>, labels: Labelling, terms: Terms, t: nat, n: nat) {
    && Typed(prog, states, labels, terms) && t < n < |prog| && Blank(prog, t, n)
    && !prog[t].op.NOP? && !prog[n].op.NOP?
  }

  lemma PairFits(prog: seq<Instr>, states: seq<State>, labels: Labelling, terms: Terms, t: nat, n: nat)
    requires Pair(prog, states, labels, terms, t, n)
    ensures |states| == |prog| + 1
    ensures Fits(prog[t], states[t], states[t + 1], labels, terms) && Le(states[t + 1], states[n])
    ensures Fits(prog[n], states[n], states[n + 1], labels, terms)
  {
    hide Fits, Le;
    BlankLe(prog, states, labels, terms, t, n);
    assert FitsAt(prog, states, labels, terms, t) && FitsAt(prog, states, labels, terms, n);
  }

  /** Instructions with a successor state. */
  predicate Straightforward(op: Opcode) {
    IsMove(op) || op.PUSH? || op.POP? || IsMath(op)
  }

  lemma FitsAfter(i: Instr, s: State, s': State, labels: Labelling, terms: Terms)
    requires Fits(i, s, s', labels, terms) && Straightforward(i.op)
    ensures After(i, s).Some? && Le(After(i, s).value, s')
    ensures terms.checked && IsMath(i.op) ==> ArithmeticFits(i, s)
  {
    hide After, Le, ArithmeticFits;
  }

  lemma ForwardRule(prog: seq<Instr>, terms: Terms, t: nat, n: nat)
    requires Sound(prog, terms) && t < n < |prog| && Blank(prog, t, n) && !prog[t].op.NOP? && !prog[n].op.NOP?
    requires IsMove(prog[t].op) && prog[t].dst.Register? && prog[n].src == prog[t].dst && !prog[t].src.Nothing?
    ensures KeepsSound(prog, Forward(prog, t, n), terms)
  {
    hide WellTyped, CanForward, TotalWeight;
    var a, b := prog[t], prog[n];
    ForwardTyped(prog, terms, t, n);
    WeightOfTwo(prog, t, n, Omit(a), b.(src := a.src));
    ForwardWeight(a, b);
  }

  lemma ForwardWeight(a: Instr, b: Instr)
    requires b.src.Register? && !a.op.NOP?
    ensures Weight(Omit(a)) + Weight(b.(src := a.src)) <= Weight(a) + Weight(b)
  {
  }

  lemma ForwardTyped(prog: seq<Instr>, terms: Terms, t: nat, n: nat)
    requires WellTyped(prog, terms) && t < n < |prog| && Blank(prog, t, n) && !prog[t].op.NOP? && !prog[n].op.NOP?
    requires IsMove(prog[t].op) && prog[t].dst.Register? && prog[n].src == prog[t].dst && !prog[t].src.Nothing?
    ensures CanForward(prog, n, prog[t]) && WellTyped(Forward(prog, t, n).prog, terms)
  {
    hide Typed, Fits, Le, CanForward, Blank, WellTyped;
    var states, labels := TypesOf(prog, terms);
    var a, b := prog[t], prog[n];
    var s, s', s'' := StatesAt(prog, states, labels, terms, t, n);
    FeedsHere(a, b, s, states[t + 1], s', labels, terms);
    var b' := b.(src := a.src);
    EndSource(b, s', s'', labels, terms);
    FeedsAny(a, b, s, s', s'', labels, terms);
    PastByMode(prog, states, labels, terms, n, CellOf(a.dst).value);
    ProductDead(prog, states, labels, terms, n);
    Forwards(prog, n, a, s);
    OmittedFits(a, s, labels, terms);
    Retyped2(prog, states, labels, terms, t, n, Omit(a), b', s);
  }

  /** Nothing reads what a product leaves where remainders go. */
  lemma ProductDead(prog: seq<Instr>, states: seq<State>, labels: Labelling, terms: Terms, n: nat)
    requires Typed(prog, states, labels, terms) && n < |prog| && |states| == |prog| + 1
    ensures prog[n].op.MUL? ==> Dead(prog, n + 1, Slot(REMAINDER_SLOT))
  {
    hide Typed, Fits, Le, After, Dead;
    if prog[n].op.MUL? {
      AllFit(prog, states, labels, terms, n);
      FitsAfter(prog[n], states[n], states[n + 1], labels, terms);
      ProductGives(prog[n], states[n]);
      LeDead(After(prog[n], states[n]).value, states[n + 1], Slot(REMAINDER_SLOT));
      ModeDead(prog, states, labels, terms, n + 1, Slot(REMAINDER_SLOT));
    }
  }

  lemma ProductGives(i: Instr, s: State)
    requires i.op.MUL? && After(i, s).Some?
    ensures !Live(After(i, s).value.mode, Slot(REMAINDER_SLOT))
  {
    hide OperationKind, OperandKind;
  }

  lemma TypesOf(prog: seq<Instr>, terms: Terms) returns (states: seq<State>, labels: Labelling)
    requires WellTyped(prog, terms)
    ensures TypedFromStart(prog, states, labels, terms) && |states| == |prog| + 1
  {
    states, labels :| TypedFromStart(prog, states, labels, terms);
  }

  lemma StatesAt(prog: seq<Instr>, states: seq<State>, labels: Labelling, terms: Terms, t: nat, n: nat)
    returns (s: State, s': State, s'': State)
    requires Typed(prog, states, labels, terms) && t < n < |prog| && Blank(prog, t, n) && |states| == |prog| + 1
    requires !prog[t].op.NOP? && !prog[n].op.NOP?
    ensures s == states[t] && s' == states[n] && s'' == states[n + 1]
    ensures Fits(prog[t], s, states[t + 1], labels, terms) && Le(states[t + 1], s')
    ensures Fits(prog[n], s', s'', labels, terms)
  {
    hide Fits, Le;
    s, s', s'' := states[t], states[n], states[n + 1];
    PairFits(prog, states, labels, terms, t, n);
  }

  lemma FeedsHere(a: Instr, b: Instr, s: State, s1: State, s': State, labels: Labelling, terms: Terms)
    requires IsMove(a.op) && a.dst.Register? && b.src == a.dst && Fits(a, s, s1, labels, terms) && Le(s1, s')
    requires !a.src.Nothing?
    ensures Feeds(a, b, s, s') && CellOf(a.dst).Some?
  {
    hide Le, Fits;
    FitsAfter(a, s, s1, labels, terms);
    LeTransitive(After(a, s).value, s1, s');
    MovedRegister(a, s);
  }

  lemma MovedRegister(a: Instr, s: State)
    requires IsMove(a.op) && a.dst.Register? && After(a, s).Some? && !a.src.Nothing?
    ensures (a.dst == T1 || a.dst == T2) && After(a, s) == Moved(a, s)
    ensures FromFirst(a.src) || Quiet(a.src)
  {
    hide OperandKind;
  }

  lemma EndSource(i: Instr, s: State, s': State, labels: Labelling, terms: Terms)
    requires Fits(i, s, s', labels, terms)
    ensures i.op.EOF? ==> !i.src.Register?
  {
  }

  lemma OmittedFits(i: Instr, s: State, labels: Labelling, terms: Terms)
    ensures Fits(Omit(i), s, s, labels, terms)
  {
    hide After, BranchFits, CallFits;
    LeReflexive(s);
  }

  lemma Forwards(prog: seq<Instr>, n: nat, a: Instr, s: State)
    requires n < |prog| && ReadsRegister(prog[n].op) && IsMove(a.op) && a.dst.Register? && Moved(a, s).Some?
    requires !a.src.Nothing?
    requires prog[n].src == a.dst && (a.dst == T1 || a.dst == T2) && DeadPast(prog, n, CellOf(a.dst).value)
    requires ReadsDestination(prog[n].op) ==> a.dst == T2 && prog[n].dst == T1
    requires prog[n].op.MUL? ==> Dead(prog, n + 1, Slot(REMAINDER_SLOT))
    ensures CanForward(prog, n, a)
  {
    hide DeadPast, Dead;
    MovedRegister(a, s);
  }

  // ----- The four groups -----

  lemma Fires(prog: seq<Instr>, states: seq<State>, labels: Labelling, terms: Terms, t: nat, n: nat)
    returns (s: State, s': State, s'': State)
    requires Typed(prog, states, labels, terms) && t < n < |prog| && Blank(prog, t, n) && |states| == |prog| + 1
    requires Straightforward(prog[t].op) && Straightforward(prog[n].op)
    ensures s == states[t] && s' == states[n] && s'' == states[n + 1]
    ensures After(prog[t], s).Some? && Le(After(prog[t], s).value, s')
    ensures After(prog[n], s').Some? && Le(After(prog[n], s').value, s'')
    ensures terms.checked && IsMath(prog[t].op) ==> ArithmeticFits(prog[t], s)
    ensures terms.checked && IsMath(prog[n].op) ==> ArithmeticFits(prog[n], s')
  {
    hide Fits, Le, After, Typed, Blank, ArithmeticFits;
    NotOmitted(prog[t]);
    NotOmitted(prog[n]);
    var x, y, z := StatesAt(prog, states, labels, terms, t, n);
    s, s', s'' := x, y, z;
    FitsAfter(prog[t], s, states[t + 1], labels, terms);
    FitsAfter(prog[n], s', s'', labels, terms);
    LeTransitive(After(prog[t], s).value, states[t + 1], s');
  }

  lemma NotOmitted(i: Instr)
    requires Straightforward(i.op)
    ensures !i.op.NOP?
  {
  }

  /** push; pop of the same register. */
  lemma CancelRule(prog: seq<Instr>, terms: Terms, t: nat, n: nat)
    requires Sound(prog, terms) && t < n < |prog| && Blank(prog, t, n)
    requires prog[t].op.PUSH? && prog[n].op.POP? && prog[t].src.Register? && prog[n].dst == prog[t].src
    ensures Known(prog[n].dst)
    ensures Sound(prog[t := Omit(prog[t])][n := Omit(prog[n])], terms)
  {
    hide Typed, Fits, Le, Blank, WellTyped, TotalWeight;
    var states, labels := TypesOf(prog, terms);
    var a, b := prog[t], prog[n];
    var s, s', s'' := Fires(prog, states, labels, terms, t, n);
    PopHere(b, s');
    PushPopFits(a.src, b.dst, s, s', LOAD);
    LeTransitive(s, PopTo(b.dst, s').value, s'');
    OmittedFits(a, s, labels, terms);
    OmittedBetween(b, s, s'', labels, terms);
    Retyped2(prog, states, labels, terms, t, n, Omit(a), Omit(b), s);
    WeightOfTwo(prog, t, n, Omit(a), Omit(b));
    OmitWeight(a);
    OmitWeight(b);
  }

  lemma PopHere(b: Instr, s: State)
    requires b.op.POP? && After(b, s).Some?
    ensures PopTo(b.dst, s).Some? && After(b, s) == PopTo(b.dst, s)
    ensures b.src.Register? ==> s.mode.Pushed? || s.mode.Args?
  {
    hide PopTo;
  }

  lemma OmittedBetween(i: Instr, s: State, s': State, labels: Labelling, terms: Terms)
    requires Le(s, s')
    ensures Fits(Omit(i), s, s', labels, terms)
  {
    hide After, BranchFits, CallFits, Le;
  }

  /** push; pop as a move. */
  lemma MoveRule(prog: seq<Instr>, terms: Terms, t: nat, n: nat, op: Opcode)
    requires Sound(prog, terms) && t < n < |prog| && Blank(prog, t, n) && IsMove(op)
    requires prog[t].op.PUSH? && prog[n].op.POP?
    ensures !OnStack(prog[n].dst)
    ensures Sound(prog[t := Omit(prog[t])][n := Instr(op, prog[n].dst, prog[t].src)], terms)
  {
    hide Typed, Fits, Le, Blank, WellTyped, TotalWeight;
    var states, labels := TypesOf(prog, terms);
    var a, b := prog[t], prog[n];
    var s, s', s'' := Fires(prog, states, labels, terms, t, n);
    PopHere(b, s');
    PushPopFits(a.src, b.dst, s, s', op);
    var i := Instr(op, b.dst, a.src);
    LeTransitive(Moved(i, s).value, PopTo(b.dst, s').value, s'');
    OmittedFits(a, s, labels, terms);
    MoveFits(i, s, s'', labels, terms);
    Retyped2(prog, states, labels, terms, t, n, Omit(a), i, s);
    WeightOfTwo(prog, t, n, Omit(a), i);
    MoveWeight(a, b, op);
  }

  lemma MoveFits(i: Instr, s: State, s': State, labels: Labelling, terms: Terms)
    requires IsMove(i.op) && Moved(i, s).Some? && Le(Moved(i, s).value, s') && !s.mode.Zeroed?
    ensures Fits(i, s, s', labels, terms)
  {
    hide Moved, Le, BranchFits, CallFits;
  }

  lemma MoveWeight(a: Instr, b: Instr, op: Opcode)
    requires !a.op.NOP?
    ensures Weight(Omit(a)) + Weight(Instr(op, b.dst, a.src)) <= Weight(a) + Weight(b)
  {
  }

  /** push; move; pop with the pop's load first. */
  lemma MoveUpRule(prog: seq<Instr>, terms: Terms, t: nat, n: nat, u: nat)
    requires Sound(prog, terms) && t < n < u < |prog| && Blank(prog, t, n) && Blank(prog, n, u)
    requires prog[t].op.PUSH? && IsMove(prog[n].op) && prog[u].op.POP?
    ensures CanMoveUp(prog[n], prog[u])
    ensures Sound(prog[u := Omit(prog[u])][t := Instr(LOAD, prog[u].dst, prog[t].src)], terms)
  {
    hide Typed, Fits, Le, Blank, WellTyped, TotalWeight, CanMoveUp, Moved, PushOf, PopTo;
    var states, labels := TypesOf(prog, terms);
    var a, b, d := prog[t], prog[n], prog[u];
    var s, s1, s2 := Fires(prog, states, labels, terms, t, n);
    var r1, r2, r3 := Fires(prog, states, labels, terms, n, u);
    PopHere(d, r2);
    MovedHere(b, s1);
    MoveUpFits(a.src, b, d.dst, s, s1, r2);
    var load := Instr(LOAD, d.dst, a.src);
    var m1 := Moved(load, s).value;
    var m2 := Moved(b, m1).value;
    LeTransitive(m2, PopTo(d.dst, r2).value, r3);
    LeReflexive(m1);
    LeReflexive(m2);
    MoveFits(load, s, m1, labels, terms);
    MoveFits(b, m1, m2, labels, terms);
    OmittedBetween(d, m2, r3, labels, terms);
    Retyped3(prog, states, labels, terms, t, n, u, load, b, Omit(d), m1, m2);
    assert prog[t := load][n := b][u := Omit(d)] == prog[u := Omit(d)][t := load];
    MovesUpAlike(b, d);
    WeightOfTwo(prog, u, t, Omit(d), load);
    MoveUpWeight(a, d);
  }

  lemma MovedHere(b: Instr, s: State)
    requires IsMove(b.op) && After(b, s).Some?
    ensures After(b, s) == Moved(b, s)
  {
    hide Moved;
  }

  lemma MovesUpAlike(b: Instr, d: Instr)
    requires CanMoveUp(b, Instr(POP, d.dst, Nothing))
    ensures CanMoveUp(b, d)
  {
  }

  lemma MoveUpWeight(a: Instr, d: Instr)
    requires !a.op.NOP?
    ensures Weight(Omit(d)) + Weight(Instr(LOAD, d.dst, a.src)) <= Weight(d) + Weight(a)
  {
  }

  /** pop; move as a pop. */
  lemma PopIntoRule(prog: seq<Instr>, terms: Terms, t: nat, n: nat)
    requires Sound(prog, terms) && t < n < |prog| && Blank(prog, t, n)
    requires prog[t].op.POP? && IsMove(prog[n].op) && prog[t].dst.Register? && prog[n].src == prog[t].dst
    requires !Lone(prog[n].dst) && !prog[n].dst.Local?
    ensures CanPopInto(prog, n, prog[t])
    ensures Sound(prog[t := Omit(prog[t])][n := prog[n].(op := POP)], terms)
  {
    hide Typed, Fits, Le, Blank, WellTyped, TotalWeight, Moved, PopTo, Live, DeadPast, Overwrites;
    var states, labels := TypesOf(prog, terms);
    var a, b := prog[t], prog[n];
    var s, s', s'' := Fires(prog, states, labels, terms, t, n);
    PopHere(a, s);
    MovedHere(b, s');
    PopIntoFits(a.dst, b, s, s');
    var i := b.(op := POP);
    LeTransitive(PopTo(b.dst, s).value, Moved(b, s').value, s'');
    PopFits(i, s, s'', labels, terms);
    OmittedFits(a, s, labels, terms);
    Retyped2(prog, states, labels, terms, t, n, Omit(a), i, s);
    PoppedDead(b, s', s'', labels);
    PastByMode(prog, states, labels, terms, n, Accumulator);
    WeightOfTwo(prog, t, n, Omit(a), i);
    PopWeight(a, b);
  }

  lemma PopFits(i: Instr, s: State, s': State, labels: Labelling, terms: Terms)
    requires i.op.POP? && PopTo(i.dst, s).Some? && Le(PopTo(i.dst, s).value, s') && (s.mode.Pushed? || s.mode.Args?)
    ensures Fits(i, s, s', labels, terms)
  {
    hide PopTo, Le, BranchFits, CallFits;
  }

  lemma PoppedDead(b: Instr, s: State, s': State, labels: Labelling)
    requires IsMove(b.op) && Moved(b, s).Some? && Le(Moved(b, s).value, s')
    requires b.dst == T1 || !Live(Moved(b, s).value.mode, Accumulator)
    ensures ExitsDead(b, s', labels, Accumulator)
  {
    hide Moved, Le, Live;
    if b.dst == T1 {
      MovedOver(b);
    } else {
      LeDead(Moved(b, s).value, s', Accumulator);
    }
  }

  lemma PopWeight(a: Instr, b: Instr)
    requires !a.op.NOP? && b.src.Register?
    ensures Weight(Omit(a)) + Weight(b.(op := POP)) <= Weight(a) + Weight(b)
  {
  }

  /** What typed instructions write to, and what operations work with. */
  lemma TypedOperands(prog: seq<Instr>, terms: Terms, k: nat)
    requires Sound(prog, terms) && k < |prog|
    ensures prog[k].op.POP? || prog[k].op.LOAD? ==>
      !prog[k].dst.Imm? && (IsTemporary(prog[k].dst) || Unlike(T1, prog[k].dst))
    ensures prog[k].op.STORE? && prog[k].dst.Register? ==> IsTemporary(prog[k].dst)
    ensures IsMath(prog[k].op) ==> prog[k].dst == T1 && (prog[k].src == T2 || Unlike(T1, prog[k].src))
  {
    hide Typed, After, Sound, WellTyped;
    var i := prog[k];
    if Straightforward(i.op) {
      assert WellTyped(prog, terms) by { SoundIsTyped(prog, terms); }
      var states, labels := TypesOf(prog, terms);
      AllFit(prog, states, labels, terms, k);
      FitsAfter(i, states[k], states[k + 1], labels, terms);
      AfterOperands(i, states[k]);
    }
  }

  lemma SoundIsTyped(prog: seq<Instr>, terms: Terms)
    requires Sound(prog, terms)
    ensures WellTyped(prog, terms)
  {
  }

  predicate IsTemporary(o: Operand) {
    o == T1 || o == T2
  }

  lemma AfterOperands(i: Instr, s: State)
    requires Straightforward(i.op) && After(i, s).Some?
    ensures i.op.POP? || i.op.LOAD? ==> !i.dst.Imm? && (IsTemporary(i.dst) || Unlike(T1, i.dst))
    ensures i.op.STORE? && i.dst.Register? ==> IsTemporary(i.dst)
    ensures IsMath(i.op) ==> i.dst == T1 && (i.src == T2 || Unlike(T1, i.src))
  {
    hide OperandKind, OperationKind, LoadFirst, LoadSecond, StoreLocal, Place, PlaceLone;
  }

  /** Where an operand that is no register is compared with a register, they do not look the same. */
  lemma LooksAlike(g: Guards, r: Operand, o: Operand)
    requires Distinct(g) && r.Register? && (RegistersEqual(g, r, o) || RegistersEqual(g, o, r))
    requires o.Register? || (Unlike(T1, o) && (r.temporary || !o.Imm?))
    ensures r == o
  {
  }

  /** A pop is not made to go straight to the place of an only argument or to a local. */
  predicate PopsToPlace(prog: seq<Instr>, index: nat)
    requires EndsInEOF(prog)
  {
    var a, b := prog[Peek(prog, index, 0)], prog[Peek(prog, index, 1)];
    a.op.POP? && IsMove(b.op) && a.dst.Register? && b.src == a.dst ==> !Lone(b.dst) && !b.dst.Local?
  }

  /** The empty value goes nowhere but to its local. */
  lemma EmptyStays(prog: seq<Instr>, terms: Terms, t: nat, n: nat)
    requires Sound(prog, terms) && t < n < |prog| && Blank(prog, t, n)
    requires !prog[n].op.NOP? && IsMove(prog[t].op) && prog[t].src.Nothing? && prog[t].dst.Register?
    requires prog[n].src == prog[t].dst
    ensures prog[n].op.STORE? && prog[n].dst.Local? && prog[n].dst.uid in terms.empty
  {
    hide WellTyped, Typed, Fits, Le, After, Blank, TotalWeight;
    var states, labels := TypesOf(prog, terms);
    var s, s', s'' := StatesAt(prog, states, labels, terms, t, n);
    FitsAfter(prog[t], s, states[t + 1], labels, terms);
    LeTransitive(After(prog[t], s).value, states[t + 1], s');
    EmptyLoaded(prog[t], s, s');
    EmptyTarget(prog[n], s', s'', labels, terms);
  }

  lemma EmptyLoaded(a: Instr, s: State, s': State)
    requires IsMove(a.op) && a.src.Nothing? && a.dst.Register? && After(a, s).Some? && Le(After(a, s).value, s')
    ensures s'.mode.Zeroed? && a.dst == T1
  {
    hide BelowLe, KindLe;
  }

  lemma EmptyTarget(b: Instr, s: State, s': State, labels: Labelling, terms: Terms)
    requires s.mode.Zeroed? && b.src.Register? && !b.op.NOP? && Fits(b, s, s', labels, terms)
    ensures b.op.STORE? && b.dst.Local? && b.dst.uid in terms.empty
  {
    hide Le, OperandKind, OperationKind, ArithmeticFits;
  }

  /** Whatever rule on pushes and pops fires. */
  lemma StackRule(g: Guards, prog: seq<Instr>, index: nat, terms: Terms)
    requires EndsInEOF(prog) && Sound(prog, terms) && Distinct(g) && PopsToPlace(prog, index)
    ensures KeepsSound(prog, StackOperations(g, prog, index), terms)
  {
    hide Sound, Peek, Blank, Distinct, RegistersEqual, CanForward, CanMoveUp, CanPopInto, Known, Forward;
    Apart(prog, index);
    var t, n, u := Peek(prog, index, 0), Peek(prog, index, 1), Peek(prog, index, 2);
    var a, b, d := prog[t], prog[n], prog[u];
    Unchanged(prog, terms);
    if a.op.PUSH? && b.op.POP? {
      if a.src.Register? {
        if RegistersEqual(g, a.src, b.dst) {
          TypedOperands(prog, terms, n);
          LooksAlike(g, a.src, b.dst);
          CancelRule(prog, terms, t, n);
        } else {
          MoveRule(prog, terms, t, n, STORE);
        }
      } else {
        MoveRule(prog, terms, t, n, LOAD);
      }
    } else if a.op.LOAD? && a.dst.Register? && b.op.PUSH? && b.src.Register? && RegistersEqual(g, a.dst, b.src)
              && !a.src.Register? {
      LooksAlike(g, a.dst, b.src);
      if a.src.Nothing? {
        EmptyStays(prog, terms, t, n);
        assert false;
      }
      ForwardRule(prog, terms, t, n);
    } else if a.op.PUSH? && IsMove(b.op) && d.op.POP? && !RegistersEqual(g, d.dst, b.dst) {
      MoveUpRule(prog, terms, t, n, u);
    } else if a.op.POP? && IsMove(b.op) && a.dst.Register? && b.src.Register? && RegistersEqual(g, a.dst, b.src)
              && g.poppedAlike(a.dst, b.src) {
      LooksAlike(g, a.dst, b.src);
      PopIntoRule(prog, terms, t, n);
    }
  }

  /** A move of a register into itself. */
  lemma SelfMoveRule(prog: seq<Instr>, terms: Terms, t: nat)
    requires Sound(prog, terms) && t < |prog| && IsMove(prog[t].op)
    requires prog[t].dst.Register? && prog[t].src == prog[t].dst
    ensures Known(prog[t].dst) && Sound(prog[t := Omit(prog[t])], terms)
  {
    hide Typed, Fits, Le, WellTyped, TotalWeight, After;
    var states, labels := TypesOf(prog, terms);
    var a := prog[t];
    assert FitsAt(prog, states, labels, terms, t) by { AllFit(prog, states, labels, terms, t); }
    FitsAfter(a, states[t], states[t + 1], labels, terms);
    SelfMoveFits(a, states[t]);
    LeTransitive(states[t], After(a, states[t]).value, states[t + 1]);
    OmittedBetween(a, states[t], states[t + 1], labels, terms);
    Retyped1(prog, states, labels, terms, t, Omit(a));
    WeightReplaced(prog, t, Omit(a));
    OmitWeight(a);
  }

  lemma AllFit(prog: seq<Instr>, states: seq<State>, labels: Labelling, terms: Terms, k: nat)
    requires Typed(prog, states, labels, terms) && k < |prog|
    ensures |states| == |prog| + 1 && FitsAt(prog, states, labels, terms, k)
  {
    hide FitsAt;
  }

  lemma SelfMoveFits(a: Instr, s: State)
    requires IsMove(a.op) && a.dst.Register? && a.src == a.dst && After(a, s).Some?
    ensures Known(a.dst) && Le(s, After(a, s).value)
  {
    LeReflexive(s);
  }

  lemma LoadStoreRule(g: Guards, prog: seq<Instr>, index: nat, terms: Terms)
    requires EndsInEOF(prog) && Sound(prog, terms) && Distinct(g) && KeepsEmpty(g, terms.empty)
    ensures KeepsSound(prog, LoadsAndStores(g, prog, index), terms)
  {
    hide Sound, Peek, Blank, Distinct, RegistersEqual, CanForward, Known, Forward;
    Apart(prog, index);
    var t, n := Peek(prog, index, 0), Peek(prog, index, 1);
    var a, b := prog[t], prog[n];
    Unchanged(prog, terms);
    if IsMove(a.op) && a.dst.Register? && a.src.Register? && a.dst == a.src && g.movedAlike(a.dst, a.src) {
      SelfMoveRule(prog, terms, t);
    } else if a.op.LOAD? && b.src.Register? && (RegistersEqual(g, b.src, a.dst) || RegistersEqual(g, a.dst, b.src)) {
      TypedOperands(prog, terms, t);
      LooksAlike(g, b.src, a.dst);
      if a.src.Nothing? {
        EmptyStays(prog, terms, t, n);
      } else {
        ForwardRule(prog, terms, t, n);
      }
    }
  }

  /** An operation with a constant that changes nothing. */
  lemma NeutralRule(prog: seq<Instr>, terms: Terms, t: nat)
    requires Sound(prog, terms) && t < |prog| && IsMath(prog[t].op) && prog[t].src.Imm?
    ensures Known(prog[t].dst) && CanDrop(prog, t) && Sound(prog[t := Omit(prog[t])], terms)
  {
    hide Typed, Fits, Le, WellTyped, TotalWeight, Operate, Dead, Live;
    var states, labels := TypesOf(prog, terms);
    var a := prog[t];
    assert FitsAt(prog, states, labels, terms, t) by { AllFit(prog, states, labels, terms, t); }
    FitsAfter(a, states[t], states[t + 1], labels, terms);
    OperateHere(a, states[t]);
    OmitFits(a, states[t]);
    LeTransitive(states[t], Operate(a, states[t]).value, states[t + 1]);
    OmittedBetween(a, states[t], states[t + 1], labels, terms);
    Retyped1(prog, states, labels, terms, t, Omit(a));
    DropsAfter(prog, states, labels, terms, t);
    WeightReplaced(prog, t, Omit(a));
    OmitWeight(a);
  }

  lemma OperateHere(a: Instr, s: State)
    requires IsMath(a.op) && After(a, s).Some?
    ensures After(a, s) == Operate(a, s)
  {
    hide Operate;
  }

  /** Between operations no argument register matters. */
  lemma DropsAfter(prog: seq<Instr>, states: seq<State>, labels: Labelling, terms: Terms, k: nat)
    requires Typed(prog, states, labels, terms) && k < |prog| && |states| == |prog| + 1
    requires IsMath(prog[k].op) && After(prog[k], states[k]).Some?
    requires After(prog[k], states[k]).value.mode.Value? && Le(After(prog[k], states[k]).value, states[k + 1])
    ensures CanDrop(prog, k)
  {
    hide Typed, After, Dead;
    ModeDead(prog, states, labels, terms, k + 1, Slot(REMAINDER_SLOT));
  }

  /** A multiplication or division by a power of two as a shift. */
  lemma ShiftRule(prog: seq<Instr>, terms: Terms, t: nat)
    requires Sound(prog, terms) && t < |prog| && (prog[t].op.MUL? || prog[t].op.DIV?) && prog[t].src.Imm?
    requires IsPowerOfTwo(Bits(prog[t].src.n)) && prog[t].src.n != 1
    ensures CanDrop(prog, t) && (terms.checked ==> prog[t].op.MUL?)
    ensures Sound(prog[t := Instr(if prog[t].op.MUL? then SHL else SHR, prog[t].dst, Imm(ShiftFor(prog[t].src.n)))],
                  terms)
  {
    hide Typed, Fits, Le, WellTyped, TotalWeight, Operate, Dead, Live, IsPowerOfTwo, Bits, ArithmeticFits, ShiftFor;
    var states, labels := TypesOf(prog, terms);
    var a := prog[t];
    var k := ShiftFor(a.src.n);
    assert FitsAt(prog, states, labels, terms, t) by { AllFit(prog, states, labels, terms, t); }
    FitsAfter(a, states[t], states[t + 1], labels, terms);
    OperateHere(a, states[t]);
    OmitFits(a, states[t]);
    ShiftFits(a, states[t], k);
    var i := Instr(if a.op.MUL? then SHL else SHR, a.dst, Imm(k));
    OperationFits(i, states[t], states[t + 1], labels, terms);
    Retyped1(prog, states, labels, terms, t, i);
    DropsAfter(prog, states, labels, terms, t);
    WeightReplaced(prog, t, i);
    ShiftWeight(a.src.n);
    ConstantWeight(a);
    ConstantWeight(i);
  }

  lemma ConstantWeight(i: Instr)
    requires !i.op.NOP? && i.src.Imm?
    ensures Weight(i) == Magnitude(i.src.n)
  {
  }

  lemma OperationFits(i: Instr, s: State, s': State, labels: Labelling, terms: Terms)
    requires IsMath(i.op) && Operate(i, s).Some? && Le(Operate(i, s).value, s')
    requires terms.checked ==> ArithmeticFits(i, s)
    ensures Fits(i, s, s', labels, terms)
  {
    hide OperationKind, OperandKind, Le, BranchFits, CallFits, ArithmeticFits;
  }

  /** The operands of a commutative operation change places. */
  lemma SwapRule(prog: seq<Instr>, terms: Terms, t: nat, n: nat, u: nat)
    requires Sound(prog, terms) && t < n < u < |prog| && Blank(prog, t, n) && Blank(prog, n, u)
    requires prog[t].op.STORE? && prog[n].op.POP? && (prog[u].op.ADD? || prog[u].op.MUL?)
    requires prog[t].dst.Register? && prog[t].src.Register? && prog[n].dst == prog[t].src
    requires prog[u].dst.Register? ==> prog[u].dst == prog[n].dst
    requires prog[u].src == prog[t].dst
    ensures CanSwap(prog, u, prog[t])
    ensures Sound(prog[t := Omit(prog[t])][n := prog[n].(dst := prog[t].dst)], terms)
  {
    hide Typed, Fits, Le, Blank, WellTyped, TotalWeight, Operate, PopTo, Dead, DeadPast, Live, ArithmeticFits, CanSwap;
    var states, labels := TypesOf(prog, terms);
    var a, b, d := prog[t], prog[n], prog[u];
    var s, s1, s2 := Fires(prog, states, labels, terms, t, n);
    var r1, r2, r3 := Fires(prog, states, labels, terms, n, u);
    PopHere(b, s1);
    OperateHere(d, r2);
    SwapShape(a, b, d, s, s1, r2);
    SwapFits(d, s, s1, r2);
    var m := With(s, Value(KindAt(s.mode)));
    var m2 := PopTo(T2, m).value;
    LeTransitive(Operate(d, m2).value, Operate(d, r2).value, r3);
    LeReflexive(m2);
    var i := b.(dst := T2);
    OmittedBetween(a, s, m, labels, terms);
    PlainPopFits(i, m, m2, labels, terms);
    OperationFits(d, m2, r3, labels, terms);
    Retyped3(prog, states, labels, terms, t, n, u, Omit(a), i, d, m, m2);
    assert prog[t := Omit(a)][n := i][u := d] == prog[t := Omit(a)][n := i];
    SecondDead(prog, states, labels, terms, u, r2);
    SwapsWhenDead(prog, u, a, d);
    WeightOfTwo(prog, t, n, Omit(a), i);
    SwapWeight(a, b);
  }

  lemma SwapShape(a: Instr, b: Instr, d: Instr, s: State, s1: State, s2: State)
    requires a.op.STORE? && a.dst.Register? && a.src.Register? && b.op.POP? && b.dst == a.src
    requires (d.op.ADD? || d.op.MUL?) && d.src == a.dst
    requires After(a, s).Some? && Le(After(a, s).value, s1) && After(b, s1).Some? && After(d, s2).Some?
    ensures a.dst == T2 && a.src == T1 && d.dst == T1 && d.src == T2
    ensures AsValue(s.mode) && After(a, s) == Some(With(s, Second(KindAt(s.mode))))
    ensures !b.src.Register?
  {
    hide OperationKind, OperandKind, BelowLe;
  }

  lemma PlainPopFits(i: Instr, s: State, s': State, labels: Labelling, terms: Terms)
    requires i.op.POP? && PopTo(i.dst, s).Some? && Le(PopTo(i.dst, s).value, s') && !i.src.Register?
    ensures Fits(i, s, s', labels, terms)
  {
    hide Le, BranchFits, CallFits;
  }

  lemma SecondDead(prog: seq<Instr>, states: seq<State>, labels: Labelling, terms: Terms, u: nat, s: State)
    requires Typed(prog, states, labels, terms) && u < |prog| && |states| == |prog| + 1 && IsMath(prog[u].op)
    requires Operate(prog[u], s).Some? && Operate(prog[u], s).value.mode.Value?
    requires Le(Operate(prog[u], s).value, states[u + 1])
    ensures DeadPast(prog, u, Slot(T2_SLOT))
  {
    hide Typed, Operate, DeadPast;
    PastByMode(prog, states, labels, terms, u, Slot(T2_SLOT));
  }

  lemma SwapsWhenDead(prog: seq<Instr>, u: nat, a: Instr, d: Instr)
    requires u < |prog| && prog[u] == d && a.dst == T2 && a.src == T1 && d.dst == T1 && d.src == T2
    requires DeadPast(prog, u, Slot(T2_SLOT))
    ensures CanSwap(prog, u, a)
  {
    hide DeadPast;
  }

  lemma SwapWeight(a: Instr, b: Instr)
    ensures Weight(Omit(a)) + Weight(b.(dst := T2)) <= Weight(a) + Weight(b)
  {
  }

  lemma MathRule(g: Guards, prog: seq<Instr>, index: nat, terms: Terms)
    requires EndsInEOF(prog) && Sound(prog, terms) && Distinct(g)
    ensures KeepsSound(prog, MathOperations(g, prog, index), terms)
  {
    hide Sound, Peek, Blank, Distinct, RegistersEqual, CanForward, CanSwap, Known, Forward, IsPowerOfTwo, ShiftFor,
      Bits, CanDrop;
    Apart(prog, index);
    var t, n, u := Peek(prog, index, 0), Peek(prog, index, 1), Peek(prog, index, 2);
    var a, b, d := prog[t], prog[n], prog[u];
    Unchanged(prog, terms);
    if (a.op.ADD? || a.op.SUB? || a.op.SHL? || a.op.SHR?) && a.src == Imm(0) {
      NeutralRule(prog, terms, t);
    } else if (a.op.MUL? || a.op.DIV?) && a.src == Imm(1) {
      NeutralRule(prog, terms, t);
    } else if (a.op.MUL? || a.op.DIV?) && a.dst.Register? && a.src.Imm? && IsPowerOfTwo(Bits(a.src.n)) {
      ShiftRule(prog, terms, t);
    } else if a.op.STORE? && a.dst.Register? && a.src.Register? && b.op.POP? && b.dst.Register? && a.src == b.dst
              && (d.op.ADD? || d.op.MUL?) && RegistersEqual(g, d.dst, b.dst) && RegistersEqual(g, d.src, a.dst) {
      TypedOperands(prog, terms, t);
      TypedOperands(prog, terms, u);
      LooksAlike(g, b.dst, d.dst);
      LooksAlike(g, a.dst, d.src);
      SwapRule(prog, terms, t, n, u);
    } else if a.op.STORE? && a.dst.Register? && a.src.Imm? && IsMath(b.op) && b.dst.Register?
              && RegistersEqual(g, b.src, a.dst) {
      TypedOperands(prog, terms, t);
      TypedOperands(prog, terms, n);
      LooksAlike(g, a.dst, b.src);
      ForwardRule(prog, terms, t, n);
    }
  }

  /** A loaded constant and a constant operation folded. */
  lemma FoldLoadRule(g: Guards, prog: seq<Instr>, terms: Terms, t: nat, n: nat)
    requires Sound(prog, terms) && t < n < |prog| && Blank(prog, t, n)
    requires prog[t].op.LOAD? && IsMath(prog[n].op) && prog[t].src.Imm? && prog[n].src.Imm?
    requires prog[t].dst.Register? && prog[t].dst == prog[n].dst
    ensures var z := Fold(g, prog[n].op, prog[t].src.n, prog[n].src.n);
      && CanDrop(prog, n) && (terms.checked ==> FoldsExactly(prog[n].op, prog[t].src.n, prog[n].src.n))
      && Sound(prog[n := Omit(prog[n])][t := prog[t].(src := Imm(z))], terms)
  {
    hide Typed, Fits, Le, Blank, WellTyped, TotalWeight, Moved, Operate, ArithmeticFits, Fold, FoldsExactly, CanDrop;
    var states, labels := TypesOf(prog, terms);
    var a, b := prog[t], prog[n];
    var x, y := a.src.n, b.src.n;
    var z := Fold(g, b.op, x, y);
    var s, s', s'' := Fires(prog, states, labels, terms, t, n);
    OperateHere(b, s');
    OmitFits(b, s');
    MovedHere(a, s);
    FoldLoadFits(a, b, s, s', z);
    var i := a.(src := Imm(z));
    var m := Moved(i, s).value;
    LeTransitive(m, Operate(b, s').value, s'');
    LeReflexive(m);
    MoveFits(i, s, m, labels, terms);
    OmittedBetween(b, m, s'', labels, terms);
    Retyped2(prog, states, labels, terms, t, n, i, Omit(b), m);
    assert prog[t := i][n := Omit(b)] == prog[n := Omit(b)][t := i];
    DropsHere(prog, states, labels, terms, n, s');
    WeightOfTwo(prog, n, t, Omit(b), i);
    ConstantWeight(a);
    ConstantWeight(b);
    ConstantWeight(i);
    OmitWeight(b);
    if terms.checked {
      FoldedSmall(g, b.op, x, y);
    }
  }

  lemma DropsHere(prog: seq<Instr>, states: seq<State>, labels: Labelling, terms: Terms, k: nat, s: State)
    requires Typed(prog, states, labels, terms) && k < |prog| && |states| == |prog| + 1
    requires IsMath(prog[k].op) && Operate(prog[k], s).Some? && Operate(prog[k], s).value.mode.Value?
    requires Le(Operate(prog[k], s).value, states[k + 1])
    ensures CanDrop(prog, k)
  {
    hide Typed, Operate, Dead;
    ModeDead(prog, states, labels, terms, k + 1, Slot(REMAINDER_SLOT));
  }

  /** Sums, differences and bitwise combinations of small constants are exact. */
  lemma FoldedSmall(g: Guards, op: Opcode, x: Word, y: Word)
    requires Magnitude(x) + Magnitude(y) <= MOST && KeepsSmall(op)
    ensures FoldsExactly(op, x, y) && CombinesExactly(op, if IsBitwise(op) then op else ADD, x, y)
    ensures Magnitude(Fold(g, op, x, y)) <= Magnitude(x) + Magnitude(y)
  {
    hide BitwiseWord;
    if IsBitwise(op) {
      var b := if op.AND? then BitAnd else if op.OR? then BitOr else BitXor;
      BitwiseMagnitude(b, x, y);
    }
  }

  lemma BitwiseMagnitude(op: Bitwise, x: Word, y: Word)
    ensures Magnitude(BitwiseWord(op, x, y)) <= Magnitude(x) + Magnitude(y)
  {
    hide BitwiseWord, SizeOf, Bits;
    BitwiseSize(op, x, y);
    WordSize(x);
    WordSize(y);
    WordSize(BitwiseWord(op, x, y));
  }

  /** Two constant operations folded. */
  lemma FoldMathRule(g: Guards, prog: seq<Instr>, terms: Terms, t: nat, n: nat)
    requires Sound(prog, terms) && t < n < |prog| && Blank(prog, t, n)
    requires IsMath(prog[t].op) && IsMath(prog[n].op) && prog[t].src.Imm? && prog[n].src.Imm?
    requires prog[t].dst.Register? && prog[t].dst == prog[n].dst
    ensures var z := Fold(g, prog[t].op, prog[t].src.n, prog[n].src.n);
      && CanDrop(prog, n)
      && (terms.checked ==> CombinesExactly(prog[t].op, prog[n].op, prog[t].src.n, prog[n].src.n))
      && Sound(prog[n := Omit(prog[n])][t := prog[t].(src := Imm(z))], terms)
  {
    hide Typed, Fits, Le, Blank, WellTyped, TotalWeight, Operate, ArithmeticFits, Fold, CombinesExactly, CanDrop;
    var states, labels := TypesOf(prog, terms);
    var a, b := prog[t], prog[n];
    var x, y := a.src.n, b.src.n;
    var z := Fold(g, a.op, x, y);
    var s, s', s'' := Fires(prog, states, labels, terms, t, n);
    OperateHere(a, s);
    OperateHere(b, s');
    OmitFits(b, s');
    FoldMathFits(a, b, s, s', z);
    var i := a.(src := Imm(z));
    var m := Operate(i, s).value;
    LeTransitive(m, Operate(b, s').value, s'');
    LeReflexive(m);
    OperationFits(i, s, m, labels, terms);
    OmittedBetween(b, m, s'', labels, terms);
    Retyped2(prog, states, labels, terms, t, n, i, Omit(b), m);
    assert prog[t := i][n := Omit(b)] == prog[n := Omit(b)][t := i];
    DropsHere(prog, states, labels, terms, n, s');
    WeightOfTwo(prog, n, t, Omit(b), i);
    ConstantWeight(a);
    ConstantWeight(b);
    ConstantWeight(i);
    OmitWeight(b);
    if terms.checked {
      FoldedSmall(g, a.op, x, y);
    }
  }

  lemma FoldRule(g: Guards, prog: seq<Instr>, index: nat, terms: Terms)
    requires EndsInEOF(prog) && Sound(prog, terms)
    ensures KeepsSound(prog, ConstantFolding(g, prog, index), terms)
  {
    hide Sound, Peek, Blank, Fold, FoldsExactly, CombinesExactly, CanDrop;
    Apart(prog, index);
    var t, n := Peek(prog, index, 0), Peek(prog, index, 1);
    var a, b := prog[t], prog[n];
    Unchanged(prog, terms);
    if a.op.LOAD? && IsMath(b.op) && a.src.Imm? && b.src.Imm? && b.dst.Register? && a.dst.Register? && a.dst == b.dst {
      FoldLoadRule(g, prog, terms, t, n);
    } else if IsMath(a.op) && IsMath(b.op) && a.dst.Register? && b.dst.Register? && a.dst == b.dst
              && a.src.Imm? && b.src.Imm? {
      FoldMathRule(g, prog, terms, t, n);
    }
  }
}
