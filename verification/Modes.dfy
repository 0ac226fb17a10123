/** A type system for flat code: before each instruction the registers are in a mode that says which of
    them still matter, and values carry a kind that says which constant operations may follow. Code
    that can be typed never needs a register that the optimizer gives another value. */
module Modes {
  import opened Words
  import opened Lir
  import opened Liveness
  import opened Optimizing

  /** What is known of a value: it is never a constant and was not made by an operation with one; it
      is this constant; it is a constant or a sum with one; or it may be a difference with one, or a
      sum of that with one; it is a constant or was made by this bitwise operation with one; or anything. */
  datatype Kind = Fresh | Constant(n: Word) | Sum | Difference | Masked(op: Opcode) | Closed

  /** Whether arithmetic counts, and which locals may be given the empty value. */
  datatype Terms = Terms(checked: bool, empty: set<nat>)

  datatype Mode =
    | Free                                        // no register matters
    | Pushed                                      // the same, right after a push
    | Value(kind: Kind)                           // the first temporary holds a value
    | Flag                                        // the same, set by a comparison
    | Zeroed                                      // the same, the empty value, about to go to a local
    | Joined                                      // the same, about to decide a chain
    | Second(kind: Kind)                          // the second temporary holds a value
    | Both(first: Kind, second: Kind)             // both do
    | FlagBoth                                    // both do, in a chain
    | Compared                                    // the flags matter
    | Args(placed: set<nat>, loaded: bool)        // arguments are in place, maybe a value loaded
    | Alone                                       // the only argument of a call is in place
    | Params(from: nat)                           // parameters from this one up are in their registers

  /** The mode and the kinds of the values on the operand stack. */
  datatype State = State(mode: Mode, below: seq<Kind>)

  predicate AsFree(m: Mode) {
    m.Free? || m.Pushed? || m.Params?
  }

  predicate AsValue(m: Mode) {
    m.Value? || m.Flag?
  }

  function KindAt(m: Mode): Kind
    requires AsValue(m)
  {
    if m.Value? then m.kind else Fresh
  }

  /** Nothing may be added to it where arithmetic counts. */
  predicate IsFinal(k: Kind) {
    k.Closed? || k.Masked?
  }

  predicate KindLe(a: Kind, b: Kind) {
    || a == b
    || b.Closed?
    || (b.Masked? && (a.Fresh? || a.Constant?))
    || (b.Difference? && !IsFinal(a))
    || (b.Sum? && !IsFinal(a) && !a.Difference?)
  }

  predicate ModeLe(a: Mode, b: Mode) {
    || a == b
    || (AsFree(a) && b.Free?)
    || (AsValue(a) && b.Value? && KindLe(KindAt(a), b.kind))
    || (a.Second? && b.Second? && KindLe(a.kind, b.kind))
    || (a.Both? && b.Both? && KindLe(a.first, b.first) && KindLe(a.second, b.second))
  }

  predicate BelowLe(a: seq<Kind>, b: seq<Kind>) {
    |a| == |b| && forall i :: 0 <= i < |a| ==> KindLe(a[i], b[i])
  }

  /** The first state may be taken for the second. */
  predicate Le(s: State, s': State) {
    ModeLe(s.mode, s'.mode) && BelowLe(s.below, s'.below)
  }

  lemma LeReflexive(s: State)
    ensures Le(s, s)
  {
  }

  lemma ModeLeTransitive(a: Mode, b: Mode, c: Mode)
    requires ModeLe(a, b) && ModeLe(b, c)
    ensures ModeLe(a, c)
  {
  }

  lemma LeTransitive(a: State, b: State, c: State)
    requires Le(a, b) && Le(b, c)
    ensures Le(a, c)
  {
    ModeLeTransitive(a.mode, b.mode, c.mode);
  }

  // ----- Operands -----

  /** Constants and locals: reading them touches no register. */
  predicate Quiet(o: Operand) {
    o.Imm? || o.Local?
  }

  /** The first temporary, as a temporary or as the result of a call. */
  predicate FromFirst(o: Operand) {
    o == T1 || o == RESULT
  }

  function OperandKind(o: Operand): Kind {
    if o.Imm? then Constant(o.n) else Fresh
  }

  /** The place of an argument that is passed in a register. */
  predicate IsPlace(o: Operand) {
    o.Argument? && o.isCaller && o.intsPassed < MAX_REGISTER_ARGUMENTS
  }

  /** The only argument of a call: its index and number read as a register are the first temporary's. */
  predicate Lone(o: Operand) {
    o.Argument? && o.total == 1
  }

  // ----- Arithmetic -----

  /** The kind of what an operation gives, with either order of the operands for the operations whose
      operands may change places. */
  function OperationKind(op: Opcode, a: Kind, b: Kind): Kind {
    if op.ADD? then
      if a.Fresh? && b.Fresh? then Fresh
      else if (IsFinal(a) && !b.Fresh?) || (IsFinal(b) && !a.Fresh?) then Closed
      else if (a.Difference? && !b.Fresh?) || (b.Difference? && !a.Fresh?) then Difference
      else Sum
    else if op.MUL? then
      if a.Fresh? && b.Fresh? then Fresh else Closed
    else if b.Fresh? then Fresh
    else if op.SUB? && (a.Fresh? || a.Constant?) then Difference
    else if IsBitwise(op) && (a.Fresh? || a.Constant? || a == Masked(op)) then Masked(op)
    else Closed
  }

  /** Constant operations that may stand together: additions, additions after a subtraction, and one bitwise
      operation with itself. Any other operation with a constant needs an operand that is no constant and
      no result of a constant operation, and a division by a constant no power of two but 1. */
  predicate OperationOk(op: Opcode, a: Kind, b: Kind) {
    if op.ADD? then !(IsFinal(a) && !b.Fresh?) && !(IsFinal(b) && !a.Fresh?)
    else if b.Fresh? then true
    else if op.SUB? then a.Fresh? || a.Constant?
    else if IsBitwise(op) then a.Fresh? || a.Constant? || a == Masked(op)
    else if op.DIV? then a.Fresh? && b.Constant? && (b.n == 1 || !IsPowerOfTwo(Bits(b.n)))
    else a.Fresh?
  }

  // ----- Instructions -----

  function With(s: State, m: Mode): State {
    s.(mode := m)
  }

  /** A value moved into the first temporary. */
  function LoadFirst(o: Operand, s: State): Option<State> {
    if FromFirst(o) then
      if AsValue(s.mode) then Some(With(s, Value(KindAt(s.mode))))
      else if s.mode.Args? && s.mode.loaded then Some(s)
      else None
    else if Quiet(o) then
      if AsFree(s.mode) then Some(With(s, Value(OperandKind(o))))
      else if s.mode.Second? then Some(With(s, Both(OperandKind(o), s.mode.kind)))
      else if s.mode.Args? && !s.mode.loaded then Some(With(s, Args(s.mode.placed, true)))
      else None
    else None
  }

  /** A value moved into the second temporary. */
  function LoadSecond(o: Operand, s: State): Option<State> {
    if FromFirst(o) then
      if AsValue(s.mode) then Some(With(s, Second(KindAt(s.mode)))) else None
    else if Quiet(o) then
      if AsFree(s.mode) then Some(With(s, Second(OperandKind(o))))
      else if AsValue(s.mode) then Some(With(s, Both(KindAt(s.mode), OperandKind(o))))
      else None
    else None
  }

  /** A value stored in a local. */
  function StoreLocal(o: Operand, s: State): Option<State> {
    if FromFirst(o) then
      if AsValue(s.mode) || (o == T1 && s.mode.Zeroed?) then Some(With(s, Free)) else None
    else if Quiet(o) then
      if AsFree(s.mode) then Some(With(s, Free)) else None
    else if o.Argument? && !o.isCaller && o.intsPassed == o.index && s.mode == Params(o.index) then
      Some(With(s, Params(o.index + 1)))
    else None
  }

  /** An argument put into its register; no register is given two. */
  function Place(j: nat, o: Operand, s: State): Option<State> {
    if s.mode.Args? && j in s.mode.placed then None
    else if FromFirst(o) then
      if AsValue(s.mode) then Some(With(s, Args({j}, false)))
      else if s.mode.Args? && s.mode.loaded then Some(With(s, Args(s.mode.placed + {j}, false)))
      else None
    else if Quiet(o) then
      if AsFree(s.mode) then Some(With(s, Args({j}, false)))
      else if AsValue(s.mode) then Some(With(s, Args({j}, true)))
      else if s.mode.Args? then Some(With(s, Args(s.mode.placed + {j}, s.mode.loaded)))
      else None
    else None
  }

  /** The same for the only argument of a call, which only a store puts there. */
  function PlaceLone(o: Operand, s: State): Option<State> {
    if (FromFirst(o) && AsValue(s.mode)) || (Quiet(o) && AsFree(s.mode)) then Some(With(s, Alone)) else None
  }

  function Moved(i: Instr, s: State): Option<State> {
    if i.dst == T1 then
      if i.src.Nothing? then (if i.op.LOAD? && AsFree(s.mode) then Some(With(s, Zeroed)) else None)
      else LoadFirst(i.src, s)
    else if i.dst == T2 then LoadSecond(i.src, s)
    else if i.dst.Local? then
      if !i.op.STORE? then None
      else if i.src.Nothing? then (if AsFree(s.mode) then Some(With(s, Free)) else None)
      else StoreLocal(i.src, s)
    else if IsPlace(i.dst) && Lone(i.dst) then
      if i.op.STORE? && i.dst.intsPassed == 0 then PlaceLone(i.src, s) else None
    else if IsPlace(i.dst) then Place(i.dst.intsPassed, i.src, s)
    else None
  }

  function PushOf(o: Operand, s: State): Option<State> {
    if FromFirst(o) then
      if AsValue(s.mode) then Some(State(Pushed, s.below + [KindAt(s.mode)])) else None
    else if Quiet(o) then
      if AsFree(s.mode) then Some(State(Pushed, s.below + [OperandKind(o)])) else None
    else None
  }

  /** A pop: right after a push, or for the other operand of an operation, or for an argument. */
  function PopTo(o: Operand, s: State): Option<State> {
    if s.below == [] then None
    else
      var top, rest := s.below[|s.below| - 1], s.below[..|s.below| - 1];
      if o == T1 then
        if s.mode.Pushed? then Some(State(Value(top), rest))
        else if s.mode.Second? then Some(State(Both(top, s.mode.kind), rest))
        else if s.mode.Args? && !s.mode.loaded then Some(State(Args(s.mode.placed, true), rest))
        else None
      else if o == T2 then
        if s.mode.Pushed? then Some(State(Second(top), rest))
        else if s.mode.Value? then Some(State(Both(s.mode.kind, top), rest))
        else if s.mode.Flag? then Some(State(FlagBoth, rest))
        else None
      else if IsPlace(o) && !Lone(o) then
        if s.mode.Pushed? then Some(State(Args({o.intsPassed}, false), rest))
        else if s.mode.Args? && !s.mode.loaded && o.intsPassed !in s.mode.placed then
          Some(State(Args(s.mode.placed + {o.intsPassed}, false), rest))
        else None
      else None
  }

  function Operate(i: Instr, s: State): Option<State> {
    if i.dst != T1 then None
    else if i.src == T2 then
      if s.mode.Both? then Some(With(s, Value(OperationKind(i.op, s.mode.first, s.mode.second))))
      else if s.mode.FlagBoth? && (i.op.AND? || i.op.OR?) then Some(With(s, Joined))
      else None
    else if Quiet(i.src) then
      if AsValue(s.mode) then Some(With(s, Value(OperationKind(i.op, KindAt(s.mode), OperandKind(i.src))))) else None
    else None
  }

  function Compare(i: Instr, s: State): Option<State> {
    if i.dst != T1 then None
    else if i.src == T2 then
      if s.mode.Both? then Some(With(s, Compared)) else None
    else if Quiet(i.src) then
      if AsValue(s.mode) then Some(With(s, Compared)) else None
    else None
  }

  function ChangeFirst(s: State): Option<State> {
    if AsValue(s.mode) then Some(With(s, Value(Fresh)))
    else if s.mode.Args? && s.mode.loaded then Some(s)
    else None
  }

  /** The state after an instruction that goes on to the next one. */
  function After(i: Instr, s: State): Option<State> {
    if i.op.LOAD? || i.op.STORE? then Moved(i, s)
    else if i.op.PUSH? then PushOf(i.src, s)
    else if i.op.POP? then
      if i.src.Register? && !s.mode.Pushed? && !s.mode.Args? then None else PopTo(i.dst, s)
    else if i.op.COMPARE? then Compare(i, s)
    else if i.op.NEG? || i.op.NOT? || i.op.BOOL_NOT? then
      if i.dst == T1 && i.src.Nothing? then ChangeFirst(s) else None
    else if i.op.START_FUNC? then
      if s.mode == Params(0) && i.src.Function? then Some(s) else None
    else if i.op.START_BLOCK? then
      if AsFree(s.mode) && i.src.Nothing? then Some(With(s, Free)) else None
    else if i.op.END_BLOCK? then
      if AsFree(s.mode) && !i.src.Register? then Some(With(s, Free)) else None
    else if IsMath(i.op) then Operate(i, s)
    else if IsSet(i.op) then
      if i.dst == T1 && s.mode.Compared? then Some(With(s, Flag)) else None
    else None
  }

  type Labelling = map<nat, State>

  /** A jump or a fall into a label: the kind of a value is forgotten there. */
  predicate Reaches(s: State, target: State) {
    && BelowLe(s.below, target.below)
    && ((AsFree(s.mode) && target.mode.Free?) || (AsValue(s.mode) && target.mode == Value(Fresh)))
  }

  /** All argument registers of a call are filled. */
  predicate CallFits(i: Instr, s: State) {
    && i.dst.Argument? && i.src.Function? && i.dst.total <= MAX_REGISTER_ARGUMENTS
    && if i.dst.total == 0 then AsFree(s.mode)
       else if i.dst.total == 1 then s.mode.Alone?
       else s.mode.Args? && !s.mode.loaded && forall j: nat :: j < i.dst.total ==> j in s.mode.placed
  }

  /** A jump that looks at a value. */
  predicate BranchFits(i: Instr, s: State, s': State, labels: Labelling) {
    && i.dst.Label? && i.dst.id in labels
    && var target := labels[i.dst.id];
       if i.src == T1 && s.mode.Joined? then
         && BelowLe(s.below, target.below) && (target.mode.Free? || target.mode == Value(Fresh))
         && Le(With(s, Value(Fresh)), s')
       else
         && ((FromFirst(i.src) && AsValue(s.mode)) || (Quiet(i.src) && AsFree(s.mode)))
         && Reaches(With(s, Free), target) && Le(With(s, Free), s')
  }

  /** The instruction may stand between the two states. `terms` may ask for its
      arithmetic as well. */
  predicate Fits(i: Instr, s: State, s': State, labels: Labelling, terms: Terms) {
    if i.op.NOP? then Le(s, s')
    else if i.op.NEW_LABEL? then
      i.src.Label? && i.src.id in labels && Reaches(s, labels[i.src.id]) && Le(labels[i.src.id], s')
    else if i.op.JMP? then
      && i.dst.Label? && i.dst.id in labels && Reaches(s, labels[i.dst.id])
      && (i.src.Nothing? || (i.src == T1 && labels[i.dst.id].mode.Free?)) && !s'.mode.Pushed?
    else if i.op.JMP_TRUE? || i.op.JMP_FALSE? then BranchFits(i, s, s', labels)
    else if i.op.RETURN? then
      && ((FromFirst(i.src) && AsValue(s.mode)) || ((Quiet(i.src) || i.src.Nothing?) && AsFree(s.mode)))
      && !s'.mode.Pushed?
    else if i.op.END_FUNC? then i.src.Function? && !s'.mode.Pushed?
    else if i.op.EOF? then !i.src.Register? && !s'.mode.Pushed?
    else if i.op.CALL? then CallFits(i, s) && (Le(With(s, Value(Fresh)), s') || Le(With(s, Free), s'))
    else
      && After(i, s).Some? && Le(After(i, s).value, s')
      && (terms.checked && IsMath(i.op) ==> ArithmeticFits(i, s))
      && (s.mode.Zeroed? ==> EmptyFits(i, terms))
  }

  /** The empty value goes to a local that may be given it. */
  predicate EmptyFits(i: Instr, terms: Terms) {
    i.op.STORE? && i.dst.Local? && i.dst.uid in terms.empty
  }

  predicate ArithmeticFits(i: Instr, s: State) {
    if i.src == T2 then s.mode.Both? ==> OperationOk(i.op, s.mode.first, s.mode.second)
    else AsValue(s.mode) ==> OperationOk(i.op, KindAt(s.mode), OperandKind(i.src))
  }

  /** A whole program with the states between its instructions. */
  ghost predicate Typed(prog: seq<Instr>, states: seq<State>, labels: Labelling, terms: Terms) {
    |states| == |prog| + 1 && forall k :: 0 <= k < |prog| ==> FitsAt(prog, states, labels, terms, k)
  }

  ghost predicate FitsAt(prog: seq<Instr>, states: seq<State>, labels: Labelling, terms: Terms, k: nat)
    requires |states| == |prog| + 1 && k < |prog|
  {
    Fits(prog[k], states[k], states[k + 1], labels, terms)
  }

  ghost predicate TypedFromStart(prog: seq<Instr>, states: seq<State>, labels: Labelling, terms: Terms) {
    Typed(prog, states, labels, terms) && !states[0].mode.Pushed?
  }

  ghost predicate WellTyped(prog: seq<Instr>, terms: Terms) {
    exists states: seq<State>, labels: Labelling :: TypedFromStart(prog, states, labels, terms)
  }

  // ----- What matters -----

  /** The registers that may still be read. */
  predicate Live(m: Mode, c: Cell) {
    match m
    case Value(_) => c.Accumulator?
    case Flag => c.Accumulator?
    case Zeroed => c.Accumulator?
    case Joined => c.Accumulator?
    case Second(_) => c == Slot(T2_SLOT)
    case Both(_, _) => c.Accumulator? || c == Slot(T2_SLOT)
    case FlagBoth => c.Accumulator? || c == Slot(T2_SLOT)
    case Args(placed, loaded) => if c.Accumulator? then loaded else c.index in placed
    case Alone => c == Slot(0)
    case Params(from) => c.Slot? && c.index >= from
    case _ => false
  }

  lemma LiveLe(a: Mode, b: Mode, c: Cell)
    requires ModeLe(a, b) && !Live(a, c)
    ensures !Live(b, c)
  {
  }

  lemma MoveDead(i: Instr, s: State, c: Cell)
    requires (i.op.LOAD? || i.op.STORE?) && Moved(i, s).Some? && !Live(s.mode, c)
    ensures !Uses(i, c) && (Overwrites(i, c) || !Live(Moved(i, s).value.mode, c))
  {
    hide OperandKind, KindAt;
    if i.dst == T1 {
    } else if i.dst == T2 {
    } else if i.dst.Local? {
    }
  }

  lemma PopDead(i: Instr, s: State, c: Cell)
    requires i.op.POP? && PopTo(i.dst, s).Some? && !Live(s.mode, c)
    ensures !Uses(i, c) && (Overwrites(i, c) || !Live(PopTo(i.dst, s).value.mode, c))
  {
  }

  lemma OperateDead(i: Instr, s: State, c: Cell)
    requires IsMath(i.op) && Operate(i, s).Some? && !Live(s.mode, c)
    ensures !Uses(i, c) && (Overwrites(i, c) || !Live(Operate(i, s).value.mode, c))
  {
    hide OperationKind, OperandKind;
  }

  /** A register that does not matter before an instruction is not used by it, and has a new value or
      does not matter after it. */
  lemma AfterDead(i: Instr, s: State, c: Cell)
    requires After(i, s).Some? && !Live(s.mode, c)
    ensures !Uses(i, c) && (Overwrites(i, c) || !Live(After(i, s).value.mode, c))
  {
    hide Moved, PopTo, Operate;
    if i.op.LOAD? || i.op.STORE? {
      MoveDead(i, s, c);
    } else if i.op.POP? {
      PopDead(i, s, c);
    } else if IsMath(i.op) {
      OperateDead(i, s, c);
    }
  }

  /** The same for a jump that looks at a value. */
  lemma BranchDead(i: Instr, s: State, s': State, labels: Labelling, c: Cell)
    requires (i.op.JMP_TRUE? || i.op.JMP_FALSE?) && BranchFits(i, s, s', labels) && !Live(s.mode, c)
    ensures i.dst.Label? && i.dst.id in labels
    ensures !Uses(i, c) && !Live(s'.mode, c) && !Live(labels[i.dst.id].mode, c)
  {
  }

  lemma CallDead(i: Instr, s: State, c: Cell)
    requires i.op.CALL? && CallFits(i, s) && !Live(s.mode, c)
    ensures !Uses(i, c) && Overwrites(i, c)
  {
  }

  lemma ReachesDead(s: State, target: State, c: Cell)
    requires Reaches(s, target) && !Live(s.mode, c)
    ensures !Live(target.mode, c)
  {
  }

  /** Nothing that does not matter is read before it is written. */
  lemma {:induction false} DeadByMode(prog: seq<Instr>, states: seq<State>, labels: Labelling, terms: Terms, k: nat,
                                      c: Cell, n: nat)
    requires Typed(prog, states, labels, terms) && k <= |prog| && !Live(states[k].mode, c)
    ensures DeadFor(prog, k, c, n)
    decreases n
  {
    hide After, BranchFits, CallFits, Reaches, Le, Live, Uses, Overwrites, ArithmeticFits;
    if n > 0 && k < |prog| {
      var i, s, s' := prog[k], states[k], states[k + 1];
      assert FitsAt(prog, states, labels, terms, k);
      if i.op.JMP_TRUE? || i.op.JMP_FALSE? {
        BranchDead(i, s, s', labels, c);
        DeadByMode(prog, states, labels, terms, k + 1, c, n - 1);
        DeadAtLabel(prog, states, labels, terms, i.dst.id, c, n - 1);
        JumpDead(prog, k, c, n);
      } else if i.op.JMP? {
        ReachesDead(s, labels[i.dst.id], c);
        DeadAtLabel(prog, states, labels, terms, i.dst.id, c, n - 1);
        QuietUses(i, c);
        JumpDead(prog, k, c, n);
      } else if i.op.CALL? {
        CallDead(i, s, c);
      } else if i.op.NEW_LABEL? {
        ReachesDead(s, labels[i.src.id], c);
        LeDead(labels[i.src.id], s', c);
        DeadByMode(prog, states, labels, terms, k + 1, c, n - 1);
        QuietUses(i, c);
      } else if i.op.NOP? {
        LeDead(s, s', c);
        DeadByMode(prog, states, labels, terms, k + 1, c, n - 1);
        QuietUses(i, c);
      } else if i.op.RETURN? {
        ReturnUses(i, s, c);
      } else if i.op.END_FUNC? || i.op.EOF? {
        QuietUses(i, c);
      } else {
        AfterDead(i, s, c);
        if !Overwrites(i, c) {
          LeDead(After(i, s).value, s', c);
          DeadByMode(prog, states, labels, terms, k + 1, c, n - 1);
        }
        PlainDead(prog, k, c, n);
      }
    }
  }

  lemma PlainDead(prog: seq<Instr>, k: nat, c: Cell, n: nat)
    requires n > 0 && k < |prog| && !IsControl(prog[k].op) && !Uses(prog[k], c)
    requires Overwrites(prog[k], c) || DeadFor(prog, k + 1, c, n - 1)
    ensures DeadFor(prog, k, c, n)
  {
    hide Uses, Overwrites;
  }

  lemma JumpDead(prog: seq<Instr>, k: nat, c: Cell, n: nat)
    requires n > 0 && k < |prog| && !Uses(prog[k], c) && prog[k].dst.Label?
    requires prog[k].op.JMP? || prog[k].op.JMP_TRUE? || prog[k].op.JMP_FALSE?
    requires DeadFor(prog, Find(prog, prog[k].dst.id), c, n - 1)
    requires prog[k].op.JMP? || DeadFor(prog, k + 1, c, n - 1)
    ensures DeadFor(prog, k, c, n)
  {
    hide Uses, Overwrites, Find;
    assert DeadAtFor(prog, prog[k].dst, c, n - 1);
  }

  lemma LeDead(s: State, s': State, c: Cell)
    requires Le(s, s') && !Live(s.mode, c)
    ensures !Live(s'.mode, c)
  {
    LiveLe(s.mode, s'.mode, c);
  }

  lemma QuietUses(i: Instr, c: Cell)
    requires i.op.NOP? || i.op.NEW_LABEL? || i.op.JMP? || i.op.END_FUNC? || i.op.EOF?
    ensures !Uses(i, c)
  {
  }

  lemma ReturnUses(i: Instr, s: State, c: Cell)
    requires i.op.RETURN? && !Live(s.mode, c)
    requires (FromFirst(i.src) && AsValue(s.mode)) || ((Quiet(i.src) || i.src.Nothing?) && AsFree(s.mode))
    ensures !Uses(i, c)
  {
  }

  lemma {:induction false} DeadAtLabel(prog: seq<Instr>, states: seq<State>, labels: Labelling, terms: Terms, id: nat,
                                       c: Cell, n: nat)
    requires Typed(prog, states, labels, terms) && id in labels && !Live(labels[id].mode, c)
    ensures DeadFor(prog, Find(prog, id), c, n)
    decreases n, 0
  {
    hide After, BranchFits, CallFits, Reaches, Le, Live, Uses, Overwrites, ArithmeticFits, Find;
    var k := Find(prog, id);
    if n > 0 && k < |prog| {
      assert FitsAt(prog, states, labels, terms, k);
      LeDead(labels[id], states[k + 1], c);
      DeadByMode(prog, states, labels, terms, k + 1, c, n - 1);
      QuietUses(prog[k], c);
      PlainDead(prog, k, c, n);
    }
  }

  lemma ModeDead(prog: seq<Instr>, states: seq<State>, labels: Labelling, terms: Terms, k: nat, c: Cell)
    requires Typed(prog, states, labels, terms) && k <= |prog| && !Live(states[k].mode, c)
    ensures Dead(prog, k, c)
  {
    hide Typed, DeadFor, Live;
    forall n: nat
      ensures DeadFor(prog, k, c, n)
    {
      DeadByMode(prog, states, labels, terms, k, c, n);
    }
  }
}
