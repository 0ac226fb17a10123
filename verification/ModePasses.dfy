/** Over all passes typed code stays typed. One thing depends on the order in which the rules are tried:
    a push and a pop next to each other never stay behind, so no pop right after a push is made to go
    straight to the place of an only argument, which would look like the first temporary, or to a local,
    which would not get its place on the stack. */
module ModePasses {
  import opened Words
  import opened Lir
  import opened Liveness
  import opened Optimizing
  import opened Modes
  import opened ModeRules

  // ----- Pushes and pops next to each other -----

  /** No push before the index has its pop right behind it. */
  ghost predicate Pairless(prog: seq<Instr>, index: nat) {
    forall q, p :: 0 <= q < p < |prog| && IsPair(prog, q, p) ==> q >= index
  }

  ghost predicate IsPair(prog: seq<Instr>, q: nat, p: nat)
    requires q < p < |prog|
  {
    prog[q].op.PUSH? && prog[p].op.POP? && Blank(prog, q, p)
  }

  ghost predicate PushBehind(prog: seq<Instr>, t: nat)
    requires t < |prog|
  {
    exists q :: 0 <= q < t && PushAt(prog, q, t)
  }

  predicate PushAt(prog: seq<Instr>, q: nat, t: nat)
    requires q < t < |prog|
  {
    prog[q].op.PUSH? && Blank(prog, q, t)
  }

  lemma PeekPlaces(prog: seq<Instr>, index: nat)
    requires EndsInEOF(prog) && index < |prog|
    ensures var t, n := Peek(prog, index, 0), Peek(prog, index, 1);
      prog[t].op.EOF? || (t <= index < n && Blank(prog, t, n))
    ensures !prog[index].op.NOP? ==> Peek(prog, index, 0) == index
  {
    Apart(prog, index);
    PeekBackward(prog, index);
    PeekForward(prog, index + 1);
  }

  /** What a rewrite at t and n must be like to leave no pair behind. */
  ghost predicate Tidy(prog: seq<Instr>, prog': seq<Instr>, t: nat, n: nat)
    requires t < n < |prog| && |prog'| == |prog|
  {
    && (forall k :: 0 <= k < n && k != t ==> prog'[k] == prog[k])
    && if prog'[t].op.NOP? then !PushBehind(prog, t) || (!prog'[n].op.NOP? && !prog'[n].op.POP?)
       else !prog'[t].op.PUSH? && !prog'[t].op.POP?
  }

  lemma TidyIsPairless(prog: seq<Instr>, prog': seq<Instr>, t: nat, n: nat, index: nat)
    requires t <= index < n < |prog| && |prog'| == |prog| && Blank(prog, t, n)
    requires Pairless(prog, index) && Tidy(prog, prog', t, n)
    ensures Pairless(prog', index + 1)
  {
    forall q: nat, p: nat | q < p < |prog| && q <= index && IsPair(prog', q, p)
      ensures false
    {
      assert q != t && q < t;
      if p < t {
        assert IsPair(prog, q, p);
      } else if p > t {
        assert PushAt(prog, q, t);
      }
    }
  }

  // ----- Typed code after a push -----

  lemma PushedState(prog: seq<Instr>, states: seq<State>, labels: Labelling, terms: Terms, q: nat, t: nat)
    requires Typed(prog, states, labels, terms) && q < t < |prog| && PushAt(prog, q, t) && |states| == |prog| + 1
    ensures AsFree(states[t].mode)
  {
    hide Typed, BelowLe, Fits, After;
    AllFit(prog, states, labels, terms, q);
    FitsAfter(prog[q], states[q], states[q + 1], labels, terms);
    PushGives(prog[q], states[q]);
    BlankLe(prog, states, labels, terms, q, t);
  }

  lemma PushGives(i: Instr, s: State)
    requires i.op.PUSH? && After(i, s).Some?
    ensures After(i, s).value.mode.Pushed?
  {
  }

  /** Instructions that need a value in a register. */
  predicate NeedsValue(i: Instr) {
    IsMath(i.op) || (i.op.PUSH? && i.src.Register?) || (IsMove(i.op) && i.dst.Register? && i.src.Register?)
  }

  lemma NoneFromFree(i: Instr, s: State)
    requires NeedsValue(i) && AsFree(s.mode)
    ensures After(i, s).None?
  {
  }

  lemma NoPushBehind(prog: seq<Instr>, terms: Terms, t: nat)
    requires Sound(prog, terms) && t < |prog| && NeedsValue(prog[t])
    ensures !PushBehind(prog, t)
  {
    hide Sound, WellTyped, Typed, PushAt, After;
    if PushBehind(prog, t) {
      var q :| 0 <= q < t && PushAt(prog, q, t);
      SoundIsTyped(prog, terms);
      var states, labels := TypesOf(prog, terms);
      PushedState(prog, states, labels, terms, q, t);
      AllFit(prog, states, labels, terms, t);
      FitsAfter(prog[t], states[t], states[t + 1], labels, terms);
      NoneFromFree(prog[t], states[t]);
      assert false;
    }
  }

  /** The state right after a push has the push behind it. */
  lemma {:induction false} PushIsBehind(prog: seq<Instr>, states: seq<State>, labels: Labelling, terms: Terms, t: nat)
    requires TypedFromStart(prog, states, labels, terms) && t < |prog| && |states| == |prog| + 1
    requires states[t].mode.Pushed?
    ensures PushBehind(prog, t)
    decreases t
  {
    hide Fits;
    if t > 0 {
      assert FitsAt(prog, states, labels, terms, t - 1);
      OnlyPush(prog[t - 1], states[t - 1], states[t], labels, terms);
      if prog[t - 1].op.PUSH? {
        assert PushAt(prog, t - 1, t);
      } else {
        PushIsBehind(prog, states, labels, terms, t - 1);
        var q :| 0 <= q < t - 1 && PushAt(prog, q, t - 1);
        assert PushAt(prog, q, t);
      }
    }
  }

  lemma OnlyPush(i: Instr, s: State, s': State, labels: Labelling, terms: Terms)
    requires Fits(i, s, s', labels, terms) && s'.mode.Pushed?
    ensures i.op.PUSH? || (i.op.NOP? && s.mode.Pushed?)
  {
    hide BelowLe, OperandKind, OperationKind, ArithmeticFits;
  }

  /** A pop whose value goes to the place of an only argument or to a local stands right after a push. */
  lemma LoneStored(prog: seq<Instr>, terms: Terms, t: nat, n: nat)
    requires Sound(prog, terms) && t < n < |prog| && Blank(prog, t, n)
    requires prog[t].op.POP? && IsMove(prog[n].op) && prog[t].dst.Register? && prog[n].src == prog[t].dst
    requires Lone(prog[n].dst) || prog[n].dst.Local?
    ensures PushBehind(prog, t)
  {
    hide Sound, WellTyped, Typed, After, Blank;
    SoundIsTyped(prog, terms);
    var states, labels := TypesOf(prog, terms);
    var s, s', s'' := Fires(prog, states, labels, terms, t, n);
    LonePushed(prog[t], prog[n], s, s');
    PushIsBehind(prog, states, labels, terms, t);
  }

  lemma LonePushed(a: Instr, b: Instr, s: State, s': State)
    requires a.op.POP? && IsMove(b.op) && a.dst.Register? && b.src == a.dst && (Lone(b.dst) || b.dst.Local?)
    requires After(a, s).Some? && Le(After(a, s).value, s') && After(b, s').Some?
    ensures s.mode.Pushed?
  {
    hide BelowLe, OperandKind;
  }

  // ----- No pair stays behind -----

  /** A value that is forwarded goes to an instruction that reads a register, which a pop does not. */
  lemma ForwardTidy(prog: seq<Instr>, terms: Terms, t: nat, n: nat)
    requires Sound(prog, terms) && t < n < |prog| && Blank(prog, t, n) && !prog[t].op.NOP? && !prog[n].op.NOP?
    requires IsMove(prog[t].op) && prog[t].dst.Register? && prog[n].src == prog[t].dst
    ensures Tidy(prog, Forward(prog, t, n).prog, t, n)
  {
    hide Sound, WellTyped, Typed, Fits, Le, CanForward, Blank, PushBehind;
    SoundIsTyped(prog, terms);
    var states, labels := TypesOf(prog, terms);
    var a, b := prog[t], prog[n];
    var s, s', s'' := StatesAt(prog, states, labels, terms, t, n);
    if a.src.Nothing? {
      EmptyStays(prog, terms, t, n);
    } else if !b.op.EOF? {
      FeedsHere(a, b, s, states[t + 1], s', labels, terms);
      FeedsAny(a, b, s, s', s'', labels, terms);
    }
  }

  /** After the stack rules are tried at an index no pair starts there. */
  lemma StackPairs(g: Guards, prog: seq<Instr>, index: nat, terms: Terms)
    requires EndsInEOF(prog) && Sound(prog, terms) && Distinct(g) && KeepsEmpty(g, terms.empty)
    requires index < |prog| && Pairless(prog, index)
    ensures PopsToPlace(prog, index)
    ensures var prog' := StackOperations(g, prog, index).prog; |prog'| == |prog| && Pairless(prog', index + 1)
  {
    hide Sound, Peek, Blank, CanForward, CanMoveUp, CanPopInto, Known, Distinct, RegistersEqual, Pairless, Tidy,
      PushBehind;
    Apart(prog, index);
    PeekPlaces(prog, index);
    var t, n, u := Peek(prog, index, 0), Peek(prog, index, 1), Peek(prog, index, 2);
    var a, b, d := prog[t], prog[n], prog[u];
    var prog' := StackOperations(g, prog, index).prog;
    if a.op.PUSH? && b.op.POP? {
      if a.src.Register? && RegistersEqual(g, a.src, b.dst) {
        NoPushBehind(prog, terms, t);
        OmitsTidy(prog, prog', t, n);
      } else {
        MovesTidy(prog, prog', t, n);
      }
      TidyIsPairless(prog, prog', t, n, index);
    } else if a.op.LOAD? && a.dst.Register? && b.op.PUSH? && b.src.Register? && RegistersEqual(g, a.dst, b.src)
              && !a.src.Register? {
      LooksAlike(g, a.dst, b.src);
      ForwardTidy(prog, terms, t, n);
      TidyIsPairless(prog, prog', t, n, index);
    } else if a.op.PUSH? && IsMove(b.op) && d.op.POP? && !RegistersEqual(g, d.dst, b.dst) {
      LoadsTidy(prog, prog', t, n);
      TidyIsPairless(prog, prog', t, n, index);
    } else if a.op.POP? && IsMove(b.op) && a.dst.Register? && b.src.Register? && RegistersEqual(g, a.dst, b.src)
              && g.poppedAlike(a.dst, b.src) {
      PairBehind(prog, t, index);
      OmitsTidy(prog, prog', t, n);
      TidyIsPairless(prog, prog', t, n, index);
    } else {
      NoPairHere(prog, index);
    }
    if a.op.POP? && IsMove(b.op) && a.dst.Register? && b.src == a.dst && (Lone(b.dst) || b.dst.Local?) {
      PairBehind(prog, t, index);
      LoneStored(prog, terms, t, n);
    }
  }

  lemma OmitsTidy(prog: seq<Instr>, prog': seq<Instr>, t: nat, n: nat)
    requires t < n < |prog| && |prog'| == |prog| && !PushBehind(prog, t)
    requires prog' == prog[t := Omit(prog[t])][n := prog'[n]]
    ensures Tidy(prog, prog', t, n)
  {
    hide PushBehind;
  }

  lemma MovesTidy(prog: seq<Instr>, prog': seq<Instr>, t: nat, n: nat)
    requires t < n < |prog| && |prog'| == |prog| && IsMove(prog'[n].op)
    requires prog' == prog[t := Omit(prog[t])][n := prog'[n]]
    ensures Tidy(prog, prog', t, n)
  {
    hide PushBehind;
  }

  lemma LoadsTidy(prog: seq<Instr>, prog': seq<Instr>, t: nat, n: nat)
    requires t < n < |prog| && |prog'| == |prog| && !prog'[t].op.NOP? && !prog'[t].op.PUSH? && !prog'[t].op.POP?
    requires forall k :: 0 <= k < n && k != t ==> prog'[k] == prog[k]
    ensures Tidy(prog, prog', t, n)
  {
    hide PushBehind;
  }

  lemma PairBehind(prog: seq<Instr>, t: nat, index: nat)
    requires Pairless(prog, index) && t < |prog| && t <= index && prog[t].op.POP?
    ensures !PushBehind(prog, t)
  {
    forall q: nat | q < t
      ensures !PushAt(prog, q, t)
    {
      assert IsPair(prog, q, t) ==> q >= index;
    }
  }

  lemma PairIsSeen(prog: seq<Instr>, q: nat, p: nat)
    requires EndsInEOF(prog) && q < p < |prog| && IsPair(prog, q, p)
    ensures Peek(prog, q, 0) == q && Peek(prog, q, 1) == p
  {
    PeekPlaces(prog, q);
    PeekForward(prog, q + 1);
    assert !prog[Peek(prog, q, 1)].op.NOP?;
  }

  lemma NoPairHere(prog: seq<Instr>, index: nat)
    requires EndsInEOF(prog) && index < |prog| && Pairless(prog, index)
    requires !(prog[Peek(prog, index, 0)].op.PUSH? && prog[Peek(prog, index, 1)].op.POP?)
    ensures Pairless(prog, index + 1)
  {
    hide Peek;
    forall q: nat, p: nat | q < p < |prog| && IsPair(prog, q, p)
      ensures q >= index + 1
    {
      PairIsSeen(prog, q, p);
    }
  }

  lemma StillPairless(prog: seq<Instr>, index: nat)
    requires Pairless(prog, index + 1)
    ensures Pairless(prog, index)
  {
  }

  /** The other rules make no pair before the next index. */
  lemma LoadStorePairs(g: Guards, prog: seq<Instr>, index: nat, terms: Terms)
    requires EndsInEOF(prog) && Sound(prog, terms) && Distinct(g) && KeepsEmpty(g, terms.empty)
    requires index < |prog| && Pairless(prog, index + 1)
    ensures var prog' := LoadsAndStores(g, prog, index).prog; |prog'| == |prog| && Pairless(prog', index + 1)
  {
    hide Sound, Peek, Blank, CanForward, Known, Distinct, RegistersEqual, Pairless, Tidy, PushBehind, Forward;
    Apart(prog, index);
    PeekPlaces(prog, index);
    StillPairless(prog, index);
    var t, n := Peek(prog, index, 0), Peek(prog, index, 1);
    var a, b := prog[t], prog[n];
    var prog' := LoadsAndStores(g, prog, index).prog;
    if IsMove(a.op) && a.dst.Register? && a.src.Register? && a.dst == a.src && g.movedAlike(a.dst, a.src) {
      NoPushBehind(prog, terms, t);
      OmitsTidy(prog, prog', t, n);
      TidyIsPairless(prog, prog', t, n, index);
    } else if a.op.LOAD? && b.src.Register? && (RegistersEqual(g, b.src, a.dst) || RegistersEqual(g, a.dst, b.src)) {
      TypedOperands(prog, terms, t);
      LooksAlike(g, b.src, a.dst);
      ForwardTidy(prog, terms, t, n);
      ForwardLength(prog, t, n);
      TidyIsPairless(prog, Forward(prog, t, n).prog, t, n, index);
    }
  }

  lemma ForwardLength(prog: seq<Instr>, t: nat, n: nat)
    requires t < |prog| && n < |prog|
    ensures |Forward(prog, t, n).prog| == |prog|
  {
  }

  lemma MathPairs(g: Guards, prog: seq<Instr>, index: nat, terms: Terms)
    requires EndsInEOF(prog) && Sound(prog, terms) && Distinct(g) && KeepsEmpty(g, terms.empty)
    requires index < |prog| && Pairless(prog, index + 1)
    ensures var prog' := MathOperations(g, prog, index).prog; |prog'| == |prog| && Pairless(prog', index + 1)
  {
    hide Sound, Peek, Blank, CanForward, CanSwap, Known, Distinct, RegistersEqual, Pairless, Tidy, PushBehind, Forward,
      IsPowerOfTwo, ShiftFor, Bits, CanDrop;
    Apart(prog, index);
    PeekPlaces(prog, index);
    StillPairless(prog, index);
    var t, n, u := Peek(prog, index, 0), Peek(prog, index, 1), Peek(prog, index, 2);
    var a, b, d := prog[t], prog[n], prog[u];
    var prog' := MathOperations(g, prog, index).prog;
    if ((a.op.ADD? || a.op.SUB? || a.op.SHL? || a.op.SHR?) && a.src == Imm(0))
       || ((a.op.MUL? || a.op.DIV?) && a.src == Imm(1)) {
      NoPushBehind(prog, terms, t);
      OmitsTidy(prog, prog', t, n);
      TidyIsPairless(prog, prog', t, n, index);
    } else if (a.op.MUL? || a.op.DIV?) && a.dst.Register? && a.src.Imm? && IsPowerOfTwo(Bits(a.src.n)) {
      LoadsTidy(prog, prog', t, n);
      TidyIsPairless(prog, prog', t, n, index);
    } else if a.op.STORE? && a.dst.Register? && a.src.Register? && b.op.POP? && b.dst.Register? && a.src == b.dst
              && (d.op.ADD? || d.op.MUL?) && RegistersEqual(g, d.dst, b.dst) && RegistersEqual(g, d.src, a.dst) {
      NoPushBehind(prog, terms, t);
      OmitsTidy(prog, prog', t, n);
      TidyIsPairless(prog, prog', t, n, index);
    } else if a.op.STORE? && a.dst.Register? && a.src.Imm? && IsMath(b.op) && b.dst.Register?
              && RegistersEqual(g, b.src, a.dst) {
      TypedOperands(prog, terms, t);
      TypedOperands(prog, terms, n);
      LooksAlike(g, a.dst, b.src);
      ForwardTidy(prog, terms, t, n);
      ForwardLength(prog, t, n);
      TidyIsPairless(prog, Forward(prog, t, n).prog, t, n, index);
    }
  }

  lemma FoldPairs(g: Guards, prog: seq<Instr>, index: nat)
    requires EndsInEOF(prog) && index < |prog| && Pairless(prog, index + 1)
    ensures var prog' := ConstantFolding(g, prog, index).prog; |prog'| == |prog| && Pairless(prog', index + 1)
  {
    hide Peek, Blank, Pairless, Tidy, PushBehind, Fold, FoldsExactly, CombinesExactly, CanDrop;
    Apart(prog, index);
    PeekPlaces(prog, index);
    StillPairless(prog, index);
    var t, n := Peek(prog, index, 0), Peek(prog, index, 1);
    var a, b := prog[t], prog[n];
    var prog' := ConstantFolding(g, prog, index).prog;
    if (a.op.LOAD? || IsMath(a.op)) && prog' != prog {
      LoadsTidy(prog, prog', t, n);
      TidyIsPairless(prog, prog', t, n, index);
    }
  }

  // ----- Passes -----

  /** What a rewrite does to a typed program, and that no pair stays before the index. */
  ghost predicate Kept(prog: seq<Instr>, r: Rewritten, terms: Terms, index: nat) {
    KeepsSound(prog, r, terms) && Pairless(r.prog, index)
  }

  lemma VisitRule(g: Guards, prog: seq<Instr>, index: nat, terms: Terms)
    requires EndsInEOF(prog) && Sound(prog, terms) && Distinct(g) && KeepsEmpty(g, terms.empty)
    requires index < |prog| && Pairless(prog, index)
    ensures Kept(prog, Visit(g, prog, index), terms, index + 1)
  {
    hide Sound, StackOperations, LoadsAndStores, MathOperations, ConstantFolding, Distinct, Pairless, PopsToPlace;
    RulesKeepShape(g, prog, index);
    var r1 := StackOperations(g, prog, index);
    StackPairs(g, prog, index, terms);
    StackRule(g, prog, index, terms);
    RulesKeepShape(g, r1.prog, index);
    var r2 := LoadsAndStores(g, r1.prog, index);
    LoadStorePairs(g, r1.prog, index, terms);
    LoadStoreRule(g, r1.prog, index, terms);
    RulesKeepShape(g, r2.prog, index);
    var r3 := MathOperations(g, r2.prog, index);
    MathPairs(g, r2.prog, index, terms);
    MathRule(g, r2.prog, index, terms);
    RulesKeepShape(g, r3.prog, index);
    FoldPairs(g, r3.prog, index);
    FoldRule(g, r3.prog, index, terms);
  }

  /** The guards are as they should be at every pass and index. */
  ghost predicate AlwaysDistinct(oracle: Oracle) {
    forall pass: nat, index: nat :: Distinct(oracle(pass, index))
  }

  ghost predicate EmptyKept(oracle: Oracle, empty: set<nat>) {
    forall pass: nat, index: nat :: KeepsEmpty(oracle(pass, index), empty)
  }

  lemma {:induction false} VisitAllRule(oracle: Oracle, pass: nat, prog: seq<Instr>, count: nat, terms: Terms)
    requires EndsInEOF(prog) && Sound(prog, terms) && count <= |prog|
    requires AlwaysDistinct(oracle) && EmptyKept(oracle, terms.empty)
    ensures Kept(prog, VisitAll(oracle, pass, prog, count), terms, count)
    decreases count
  {
    hide Sound, Visit, Distinct, KeepsEmpty;
    if count == 0 {
      Unchanged(prog, terms);
    } else {
      VisitAllRule(oracle, pass, prog, count - 1, terms);
      VisitRule(oracle(pass, count - 1), VisitAll(oracle, pass, prog, count - 1).prog, count - 1, terms);
    }
  }

  lemma {:induction false} PassesRule(oracle: Oracle, prog: seq<Instr>, count: nat, terms: Terms)
    requires EndsInEOF(prog) && Sound(prog, terms) && AlwaysDistinct(oracle) && EmptyKept(oracle, terms.empty)
    ensures KeepsSound(prog, Passes(oracle, prog, count), terms)
    decreases count
  {
    hide Sound, VisitAll, AlwaysDistinct, EmptyKept;
    if count == 0 {
      Unchanged(prog, terms);
    } else {
      var before := Passes(oracle, prog, count - 1);
      PassesRule(oracle, prog, count - 1, terms);
      VisitAllRule(oracle, count - 1, before.prog, |before.prog|, terms);
    }
  }

  /** Over all passes every rewrite of a typed program is safe; and if its arithmetic is typed and its
      constants are small together, every rewrite is right. */
  lemma TypedIsSafe(oracle: Oracle, prog: seq<Instr>, terms: Terms)
    requires EndsInEOF(prog) && AlwaysDistinct(oracle) && EmptyKept(oracle, terms.empty)
    requires WellTyped(prog, terms) && (terms.checked ==> TotalWeight(prog) <= MOST)
    ensures Optimized(oracle, prog).safe && (terms.checked ==> Optimized(oracle, prog).Exact())
  {
    hide WellTyped, TotalWeight, AlwaysDistinct, EmptyKept, Passes;
    PassesRule(oracle, prog, PASS_COUNT, terms);
  }
}
