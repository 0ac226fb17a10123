/** The optimizer leaves the stack heights of typed code as they were: with the same heights of the
    labels the tracker agrees with rsp after it exactly when it did before. */
module OptimizedFrames {
  import opened Words
  import opened Lir
  import opened Optimizing
  import opened Modes
  import opened ModeRules
  import opened ModePasses
  import Lowering
  import Environment
  import FunctionSim
  import FrameTracking
  import S = StackHeights
  import A = StackAgreement
  import C = Compiler
  import M = ModeStatements
  import H = Hir

  // ----- Code with the same heights -----

  /** From every view the two lead to the same view, and their heights fit together. */
  ghost predicate Same(a: seq<Instr>, b: seq<Instr>) {
    forall v: S.View, h: nat -> int :: SameFrom(v, a, b, h)
  }

  ghost predicate SameFrom(v: S.View, a: seq<Instr>, b: seq<Instr>, h: nat -> int) {
    S.ViewAll(v, a) == S.ViewAll(v, b) && (S.Fits(v, a, h) <==> S.Fits(v, b, h))
  }

  lemma SameItself(a: seq<Instr>)
    ensures Same(a, a)
  {
  }

  lemma SameThrough(a: seq<Instr>, b: seq<Instr>, c: seq<Instr>)
    requires Same(a, b) && Same(b, c)
    ensures Same(a, c)
  {
    hide S.ViewAll, S.Fits;
    forall v: S.View, h: nat -> int
      ensures SameFrom(v, a, c, h)
    {
      assert SameFrom(v, a, b, h) && SameFrom(v, b, c, h);
    }
  }

  lemma SameWithin(front: seq<Instr>, a: seq<Instr>, b: seq<Instr>, back: seq<Instr>)
    requires Same(a, b)
    ensures Same(front + a + back, front + b + back)
  {
    hide S.ViewAll, S.Fits;
    forall v: S.View, h: nat -> int
      ensures SameFrom(v, front + a + back, front + b + back, h)
    {
      assert SameFrom(S.ViewAll(v, front), a, b, h);
      S.Concatenated(v, front + a, back, h);
      S.Concatenated(v, front, a, h);
      S.Concatenated(v, front + b, back, h);
      S.Concatenated(v, front, b, h);
    }
  }

  // ----- Instruction by instruction -----

  /** An instruction that leaves the frame alone and is neither a label nor a jump. */
  predicate Still(i: Instr) {
    S.Steady(i) || i.op.NOP? || (i.op.STORE? && !i.dst.Argument? && !i.dst.Local?)
  }

  /** A value of the function's own, not a parameter on its way to its local. */
  predicate NoParameter(o: Operand) {
    o.Argument? ==> o.isCaller
  }

  /** The two do the same to the frame. */
  predicate Parallel(i: Instr, j: Instr) {
    || i == j
    || (Still(i) && Still(j))
    || (i.op.PUSH? && j.op.PUSH?)
    || (i.op.POP? && j.op.POP?)
    || ((i.op.JMP_TRUE? || i.op.JMP_FALSE?) && j.op == i.op && j.dst == i.dst)
    || (i.op.STORE? && j.op.STORE? && i.dst.Local? && j.dst == i.dst && NoParameter(i.src) && NoParameter(j.src))
  }

  lemma ParallelStep(i: Instr, j: Instr, v: S.View, h: nat -> int)
    requires Parallel(i, j)
    ensures S.ViewAfter(v, i) == S.ViewAfter(v, j) && (S.FitsAt(v, i, h) <==> S.FitsAt(v, j, h))
  {
  }

  lemma {:induction false} ParallelFrom(a: seq<Instr>, b: seq<Instr>, v: S.View, h: nat -> int)
    requires |a| == |b| && forall k :: 0 <= k < |a| ==> Parallel(a[k], b[k])
    ensures SameFrom(v, a, b, h)
    decreases |a|
  {
    hide Parallel, S.ViewAfter, S.FitsAt;
    if a != [] {
      ParallelStep(a[0], b[0], v, h);
      ParallelFrom(a[1..], b[1..], S.ViewAfter(v, a[0]), h);
    }
  }

  lemma ParallelIsSame(a: seq<Instr>, b: seq<Instr>)
    requires |a| == |b| && forall k :: 0 <= k < |a| ==> Parallel(a[k], b[k])
    ensures Same(a, b)
  {
    hide Parallel, SameFrom;
    forall v: S.View, h: nat -> int
      ensures SameFrom(v, a, b, h)
    {
      ParallelFrom(a, b, v, h);
    }
  }

  /** One or two instructions replaced by others that do the same to the frame. */
  lemma Replaced(prog: seq<Instr>, t: nat, n: nat, a: Instr, b: Instr)
    requires t < |prog| && n < |prog| && t != n && Parallel(prog[t], a) && Parallel(prog[n], b)
    ensures Same(prog, prog[t := a][n := b])
  {
    ParallelIsSame(prog, prog[t := a][n := b]);
  }

  // ----- Windows of pushes and pops -----

  predicate Plain(i: Instr) {
    Still(i) || i.op.PUSH? || i.op.POP?
  }

  function Rise(i: Instr): int {
    if i.op.PUSH? then 1 else if i.op.POP? then -1 else 0
  }

  function TotalRise(code: seq<Instr>): int {
    if code == [] then 0 else Rise(code[0]) + TotalRise(code[1..])
  }

  lemma {:induction false} RiseReplaced(code: seq<Instr>, k: nat, i: Instr)
    requires k < |code|
    ensures TotalRise(code[k := i]) == TotalRise(code) - Rise(code[k]) + Rise(i)
    decreases |code|
  {
    hide Rise;
    if k == 0 {
      assert code[k := i][1..] == code[1..];
    } else {
      RiseReplaced(code[1..], k - 1, i);
      assert code[k := i][1..] == code[1..][k - 1 := i];
    }
  }

  lemma PlainStep(i: Instr, v: S.View, h: nat -> int)
    requires Plain(i)
    ensures S.ViewAfter(v, i) == S.Up(v, Rise(i)) && (S.FitsAt(v, i, h) <==> S.Level(v))
  {
  }

  lemma LevelUp(v: S.View, k: int)
    ensures S.Level(S.Up(v, k)) <==> S.Level(v)
  {
  }

  /** Pushes, pops and what leaves the frame alone: only the height counts. */
  lemma {:induction false} PlainAll(code: seq<Instr>, v: S.View, h: nat -> int)
    requires forall k :: 0 <= k < |code| ==> Plain(code[k])
    ensures S.ViewAll(v, code) == S.Up(v, TotalRise(code)) && (S.Fits(v, code, h) <==> code == [] || S.Level(v))
    decreases |code|
  {
    hide Plain, Rise, S.ViewAfter, S.FitsAt, S.Up, S.Level;
    if code == [] {
      S.UpMore(v, 0, 0);
    } else {
      var r := Rise(code[0]);
      PlainStep(code[0], v, h);
      PlainAll(code[1..], S.Up(v, r), h);
      S.UpMore(v, r, TotalRise(code[1..]));
      LevelUp(v, r);
    }
  }

  lemma PlainSame(a: seq<Instr>, b: seq<Instr>)
    requires |a| == |b| && TotalRise(a) == TotalRise(b)
    requires forall k :: 0 <= k < |a| ==> Plain(a[k]) && Plain(b[k])
    ensures Same(a, b)
  {
    hide Plain, TotalRise, S.Up, S.Level, S.ViewAll, S.Fits;
    forall v: S.View, h: nat -> int
      ensures SameFrom(v, a, b, h)
    {
      PlainAll(a, v, h);
      PlainAll(b, v, h);
    }
  }

  /** A plain window in which two instructions are replaced, with the same rise together. */
  lemma WindowReplaced(prog: seq<Instr>, lo: nat, hi: nat, t: nat, n: nat, a: Instr, b: Instr)
    requires lo <= t < hi <= |prog| && lo <= n < hi && t != n
    requires forall k :: lo <= k < hi ==> Plain(prog[k])
    requires Plain(a) && Plain(b) && Rise(prog[t]) + Rise(prog[n]) == Rise(a) + Rise(b)
    ensures Same(prog, prog[t := a][n := b])
  {
    hide Plain, Same, Rise, TotalRise;
    var after := prog[t := a][n := b];
    var w := prog[lo..hi];
    var w' := w[t - lo := a][n - lo := b];
    RiseReplaced(w, t - lo, a);
    RiseReplaced(w[t - lo := a], n - lo, b);
    PlainSame(w, w');
    SameWithin(prog[..lo], w, w', prog[hi..]);
    assert prog == prog[..lo] + w + prog[hi..];
    assert after == prog[..lo] + w' + prog[hi..];
  }

  lemma BlankIsPlain(prog: seq<Instr>, lo: nat, hi: nat, k: nat)
    requires hi <= |prog| && Blank(prog, lo, hi) && lo < k < hi
    ensures Plain(prog[k])
  {
  }

  // ----- What typed instructions work on -----

  /** Typed instructions put values into registers, locals and register arguments only. */
  lemma TypedPlaces(i: Instr, s: State)
    requires Straightforward(i.op) && After(i, s).Some?
    ensures Plain(i) || (i.op.STORE? && i.dst.Local?)
    ensures i.op.POP? ==> Plain(Instr(STORE, i.dst, Nothing)) && !i.dst.Local?
    ensures i.op.LOAD? ==> !i.dst.Local?
    ensures IsMove(i.op) && i.dst.Register? ==> NoParameter(i.src)
  {
    hide OperandKind, OperationKind, KindAt;
  }

  lemma PlacesAt(prog: seq<Instr>, terms: Terms, k: nat)
    requires Sound(prog, terms) && k < |prog| && Straightforward(prog[k].op)
    ensures var i := prog[k];
      && (Plain(i) || (i.op.STORE? && i.dst.Local?))
      && (i.op.POP? ==> Plain(Instr(STORE, i.dst, Nothing)) && !i.dst.Local?)
      && (i.op.LOAD? ==> !i.dst.Local?)
      && (IsMove(i.op) && i.dst.Register? ==> NoParameter(i.src))
  {
    hide Typed, WellTyped, Sound, After, Plain, NoParameter;
    SoundIsTyped(prog, terms);
    var states, labels := TypesOf(prog, terms);
    AllFit(prog, states, labels, terms, k);
    FitsAfter(prog[k], states[k], states[k + 1], labels, terms);
    TypedPlaces(prog[k], states[k]);
  }

  // ----- The rules -----

  lemma OmittedParallel(i: Instr)
    requires Still(i)
    ensures Parallel(i, Omit(i)) && Plain(Omit(i)) && Rise(Omit(i)) == 0
  {
  }

  lemma ReaderParallel(b: Instr, o: Operand)
    requires ReadsRegister(b.op) && b.src.Register? && NoParameter(o)
    requires IsMove(b.op) ==> Plain(b) || (b.op.STORE? && b.dst.Local?)
    ensures Parallel(b, b.(src := o))
  {
  }

  lemma ForwardSame(prog: seq<Instr>, terms: Terms, t: nat, n: nat)
    requires Sound(prog, terms) && t < n < |prog| && Blank(prog, t, n) && !prog[t].op.NOP? && !prog[n].op.NOP?
    requires IsMove(prog[t].op) && prog[t].dst.Register? && prog[n].src == prog[t].dst
    ensures Same(prog, Forward(prog, t, n).prog)
  {
    hide Sound, WellTyped, Typed, Fits, Le, CanForward, Blank, Same, Plain, NoParameter, Parallel, Still;
    var a, b := prog[t], prog[n];
    PlacesAt(prog, terms, t);
    if a.src.Nothing? {
      EmptyStays(prog, terms, t, n);
    } else {
      SoundIsTyped(prog, terms);
      var states, labels := TypesOf(prog, terms);
      var s, s', s'' := StatesAt(prog, states, labels, terms, t, n);
      FeedsHere(a, b, s, states[t + 1], s', labels, terms);
      EndSource(b, s', s'', labels, terms);
      FeedsAny(a, b, s, s', s'', labels, terms);
    }
    if IsMove(b.op) {
      PlacesAt(prog, terms, n);
    }
    RegisterStill(a);
    OmittedParallel(a);
    ReaderParallel(b, a.src);
    Replaced(prog, t, n, Omit(a), b.(src := a.src));
  }

  lemma RegisterStill(i: Instr)
    requires (IsMove(i.op) && i.dst.Register?) || IsMath(i.op)
    ensures Still(i)
  {
  }

  /** push; move; pop with the pop's load first: the move makes no room. */
  lemma MoveBetweenIsPlain(prog: seq<Instr>, terms: Terms, t: nat, n: nat, u: nat)
    requires Sound(prog, terms) && t < n < u < |prog| && Blank(prog, t, n) && Blank(prog, n, u)
    requires prog[t].op.PUSH? && IsMove(prog[n].op) && prog[u].op.POP?
    ensures Plain(prog[n])
  {
    hide Typed, Fits, Le, Blank, WellTyped, TotalWeight, Moved, PushOf, PopTo, After;
    SoundIsTyped(prog, terms);
    var states, labels := TypesOf(prog, terms);
    var a, b, d := prog[t], prog[n], prog[u];
    var s, s1, s2 := Fires(prog, states, labels, terms, t, n);
    var r1, r2, r3 := Fires(prog, states, labels, terms, n, u);
    PopHere(d, r2);
    MovedHere(b, s1);
    PushHere(a, s);
    PushedTop(a.src, s, s1);
    MovedFromPush(b, s1, r2, d.dst);
    PlacesArePlain(b);
  }

  lemma PushHere(a: Instr, s: State)
    requires a.op.PUSH? && After(a, s).Some?
    ensures After(a, s) == PushOf(a.src, s)
  {
    hide PushOf;
  }

  lemma PlacesArePlain(b: Instr)
    requires IsMove(b.op) && (b.dst == T1 || b.dst == T2 || IsPlace(b.dst))
    ensures Plain(b)
  {
  }

  lemma BlankWindow(prog: seq<Instr>, t: nat, n: nat)
    requires t < n < |prog| && Blank(prog, t, n) && Plain(prog[t]) && Plain(prog[n])
    ensures forall k :: t <= k < n + 1 ==> Plain(prog[k])
  {
    hide Plain;
    forall k | t < k < n
      ensures Plain(prog[k])
    {
      BlankIsPlain(prog, t, n, k);
    }
  }

  /** push; pop, or pop; move: as high afterwards. */
  lemma PairSame(prog: seq<Instr>, t: nat, n: nat, a: Instr, b: Instr)
    requires t < n < |prog| && Blank(prog, t, n) && Plain(prog[t]) && Plain(prog[n]) && Plain(a) && Plain(b)
    requires Rise(prog[t]) + Rise(prog[n]) == Rise(a) + Rise(b)
    ensures Same(prog, prog[t := a][n := b])
  {
    hide Plain, Rise, Same, Blank;
    BlankWindow(prog, t, n);
    WindowReplaced(prog, t, n + 1, t, n, a, b);
  }

  lemma TripleSame(prog: seq<Instr>, t: nat, n: nat, u: nat, a: Instr, b: Instr)
    requires t < n < u < |prog| && Blank(prog, t, n) && Blank(prog, n, u)
    requires Plain(prog[t]) && Plain(prog[n]) && Plain(prog[u]) && Plain(a) && Plain(b)
    requires Rise(prog[t]) + Rise(prog[u]) == Rise(a) + Rise(b)
    ensures Same(prog, prog[u := b][t := a])
  {
    hide Plain, Rise, Same, Blank;
    BlankWindow(prog, t, n);
    BlankWindow(prog, n, u);
    WindowReplaced(prog, t, u + 1, u, t, b, a);
  }

  lemma StackSame(g: Guards, prog: seq<Instr>, index: nat, terms: Terms)
    requires EndsInEOF(prog) && Sound(prog, terms) && Distinct(g) && PopsToPlace(prog, index)
    ensures Same(prog, StackOperations(g, prog, index).prog)
  {
    hide Sound, Peek, Blank, Distinct, RegistersEqual, CanForward, CanMoveUp, CanPopInto, Known, Forward, Same, Plain;
    Apart(prog, index);
    var t, n, u := Peek(prog, index, 0), Peek(prog, index, 1), Peek(prog, index, 2);
    var a, b, d := prog[t], prog[n], prog[u];
    SameItself(prog);
    if a.op.PUSH? && b.op.POP? {
      PlacesAt(prog, terms, n);
      PushesPlain(a, b);
      if a.src.Register? {
        if RegistersEqual(g, a.src, b.dst) {
          PairSame(prog, t, n, Omit(a), Omit(b));
        } else {
          PairSame(prog, t, n, Omit(a), Instr(STORE, b.dst, a.src));
        }
      } else {
        PairSame(prog, t, n, Omit(a), Instr(LOAD, b.dst, a.src));
      }
    } else if a.op.LOAD? && a.dst.Register? && b.op.PUSH? && b.src.Register? && RegistersEqual(g, a.dst, b.src)
              && !a.src.Register? {
      LooksAlike(g, a.dst, b.src);
      ForwardSame(prog, terms, t, n);
    } else if a.op.PUSH? && IsMove(b.op) && d.op.POP? && !RegistersEqual(g, d.dst, b.dst) {
      MoveBetweenIsPlain(prog, terms, t, n, u);
      PlacesAt(prog, terms, u);
      PushesPlain(a, d);
      TripleSame(prog, t, n, u, Instr(LOAD, d.dst, a.src), Omit(d));
    } else if a.op.POP? && IsMove(b.op) && a.dst.Register? && b.src.Register? && RegistersEqual(g, a.dst, b.src)
              && g.poppedAlike(a.dst, b.src) {
      LooksAlike(g, a.dst, b.src);
      PlacesAt(prog, terms, n);
      PopsPlain(a, b);
      PairSame(prog, t, n, Omit(a), b.(op := POP));
    }
  }

  lemma PushesPlain(a: Instr, b: Instr)
    requires a.op.PUSH? && b.op.POP? && Plain(Instr(STORE, b.dst, Nothing)) && !b.dst.Local?
    ensures Plain(a) && Plain(b) && Plain(Omit(a)) && Plain(Omit(b))
    ensures Plain(Instr(STORE, b.dst, a.src)) && Plain(Instr(LOAD, b.dst, a.src))
  {
  }

  lemma PopsPlain(a: Instr, b: Instr)
    requires a.op.POP? && IsMove(b.op)
    ensures Plain(a) && Plain(Omit(a)) && Plain(b.(op := POP))
  {
  }

  lemma LoadStoreSame(g: Guards, prog: seq<Instr>, index: nat, terms: Terms)
    requires EndsInEOF(prog) && Sound(prog, terms) && Distinct(g)
    ensures Same(prog, LoadsAndStores(g, prog, index).prog)
  {
    hide Sound, Peek, Blank, Distinct, RegistersEqual, CanForward, Known, Forward, Same, Still, Parallel;
    Apart(prog, index);
    var t, n := Peek(prog, index, 0), Peek(prog, index, 1);
    var a, b := prog[t], prog[n];
    SameItself(prog);
    if IsMove(a.op) && a.dst.Register? && a.src.Register? && a.dst == a.src && g.movedAlike(a.dst, a.src) {
      OmittedSame(prog, t);
    } else if a.op.LOAD? && b.src.Register? && (RegistersEqual(g, b.src, a.dst) || RegistersEqual(g, a.dst, b.src)) {
      TypedOperands(prog, terms, t);
      LooksAlike(g, b.src, a.dst);
      ForwardSame(prog, terms, t, n);
    }
  }

  /** A move between registers or an operation may go. */
  lemma OmittedSame(prog: seq<Instr>, t: nat)
    requires t < |prog| && ((IsMove(prog[t].op) && prog[t].dst.Register?) || IsMath(prog[t].op))
    ensures Same(prog, prog[t := Omit(prog[t])])
  {
    hide Still, Parallel;
    RegisterStill(prog[t]);
    OmittedParallel(prog[t]);
    OneReplaced(prog, t, Omit(prog[t]));
  }

  lemma OneReplaced(prog: seq<Instr>, t: nat, a: Instr)
    requires t < |prog| && Parallel(prog[t], a)
    ensures Same(prog, prog[t := a])
  {
    ParallelIsSame(prog, prog[t := a]);
  }

  lemma StillParallel(i: Instr, j: Instr)
    requires Still(i) && Still(j)
    ensures Parallel(i, j)
  {
  }

  lemma MathSame(g: Guards, prog: seq<Instr>, index: nat, terms: Terms)
    requires EndsInEOF(prog) && Sound(prog, terms) && Distinct(g)
    ensures Same(prog, MathOperations(g, prog, index).prog)
  {
    hide Sound, Peek, Blank, Distinct, RegistersEqual, CanForward, CanSwap, Known, Forward, IsPowerOfTwo, ShiftFor,
      Bits, CanDrop, Same, Still, Parallel;
    Apart(prog, index);
    var t, n, u := Peek(prog, index, 0), Peek(prog, index, 1), Peek(prog, index, 2);
    var a, b, d := prog[t], prog[n], prog[u];
    SameItself(prog);
    if ((a.op.ADD? || a.op.SUB? || a.op.SHL? || a.op.SHR?) && a.src == Imm(0))
       || ((a.op.MUL? || a.op.DIV?) && a.src == Imm(1)) {
      OmittedSame(prog, t);
    } else if (a.op.MUL? || a.op.DIV?) && a.dst.Register? && a.src.Imm? && IsPowerOfTwo(Bits(a.src.n)) {
      var i := Instr(if a.op.MUL? then SHL else SHR, a.dst, Imm(ShiftFor(a.src.n)));
      RegisterStill(a);
      RegisterStill(i);
      StillParallel(a, i);
      OneReplaced(prog, t, i);
    } else if a.op.STORE? && a.dst.Register? && a.src.Register? && b.op.POP? && b.dst.Register? && a.src == b.dst
              && (d.op.ADD? || d.op.MUL?) && RegistersEqual(g, d.dst, b.dst) && RegistersEqual(g, d.src, a.dst) {
      RegisterStill(a);
      OmittedParallel(a);
      PopsParallel(b, a.dst);
      Replaced(prog, t, n, Omit(a), b.(dst := a.dst));
    } else if a.op.STORE? && a.dst.Register? && a.src.Imm? && IsMath(b.op) && b.dst.Register?
              && RegistersEqual(g, b.src, a.dst) {
      TypedOperands(prog, terms, t);
      TypedOperands(prog, terms, n);
      LooksAlike(g, a.dst, b.src);
      ForwardSame(prog, terms, t, n);
    }
  }

  lemma PopsParallel(b: Instr, o: Operand)
    requires b.op.POP?
    ensures Parallel(b, b.(dst := o))
  {
  }

  lemma FoldSame(g: Guards, prog: seq<Instr>, index: nat)
    requires EndsInEOF(prog)
    ensures Same(prog, ConstantFolding(g, prog, index).prog)
  {
    hide Peek, Blank, Fold, FoldsExactly, CombinesExactly, CanDrop, Same, Still, Parallel;
    Apart(prog, index);
    var t, n := Peek(prog, index, 0), Peek(prog, index, 1);
    var a, b := prog[t], prog[n];
    var prog' := ConstantFolding(g, prog, index).prog;
    SameItself(prog);
    if (a.op.LOAD? || IsMath(a.op)) && prog' != prog {
      RegisterStill(a);
      RegisterStill(b);
      RegisterStill(prog'[t]);
      StillParallel(a, prog'[t]);
      OmittedParallel(b);
      Replaced(prog, n, t, Omit(b), prog'[t]);
    }
  }

  // ----- Passes -----

  lemma VisitSame(g: Guards, prog: seq<Instr>, index: nat, terms: Terms)
    requires EndsInEOF(prog) && Sound(prog, terms) && Distinct(g) && KeepsEmpty(g, terms.empty)
    requires index < |prog| && Pairless(prog, index)
    ensures Same(prog, Visit(g, prog, index).prog)
  {
    hide Sound, StackOperations, LoadsAndStores, MathOperations, ConstantFolding, Distinct, Pairless, PopsToPlace, Same,
      KeepsEmpty;
    RulesKeepShape(g, prog, index);
    var r1 := StackOperations(g, prog, index);
    StackPairs(g, prog, index, terms);
    StackRule(g, prog, index, terms);
    StackSame(g, prog, index, terms);
    RulesKeepShape(g, r1.prog, index);
    var r2 := LoadsAndStores(g, r1.prog, index);
    LoadStoreRule(g, r1.prog, index, terms);
    LoadStoreSame(g, r1.prog, index, terms);
    SameThrough(prog, r1.prog, r2.prog);
    RulesKeepShape(g, r2.prog, index);
    var r3 := MathOperations(g, r2.prog, index);
    MathSame(g, r2.prog, index, terms);
    SameThrough(prog, r2.prog, r3.prog);
    RulesKeepShape(g, r3.prog, index);
    FoldSame(g, r3.prog, index);
    SameThrough(prog, r3.prog, ConstantFolding(g, r3.prog, index).prog);
  }

  lemma {:induction false} VisitAllSame(oracle: Oracle, pass: nat, prog: seq<Instr>, count: nat, terms: Terms)
    requires EndsInEOF(prog) && Sound(prog, terms) && count <= |prog|
    requires AlwaysDistinct(oracle) && EmptyKept(oracle, terms.empty)
    ensures Same(prog, VisitAll(oracle, pass, prog, count).prog)
    decreases count
  {
    hide Sound, Visit, Distinct, KeepsEmpty, Same;
    if count == 0 {
      SameItself(prog);
    } else {
      var before := VisitAll(oracle, pass, prog, count - 1);
      VisitAllRule(oracle, pass, prog, count - 1, terms);
      VisitAllSame(oracle, pass, prog, count - 1, terms);
      VisitSame(oracle(pass, count - 1), before.prog, count - 1, terms);
      SameThrough(prog, before.prog, VisitAll(oracle, pass, prog, count).prog);
    }
  }

  lemma {:induction false} PassesSame(oracle: Oracle, prog: seq<Instr>, count: nat, terms: Terms)
    requires EndsInEOF(prog) && Sound(prog, terms) && AlwaysDistinct(oracle) && EmptyKept(oracle, terms.empty)
    ensures Same(prog, Passes(oracle, prog, count).prog)
    decreases count
  {
    hide Sound, VisitAll, AlwaysDistinct, EmptyKept, Same;
    if count == 0 {
      SameItself(prog);
    } else {
      var before := Passes(oracle, prog, count - 1);
      PassesRule(oracle, prog, count - 1, terms);
      PassesSame(oracle, prog, count - 1, terms);
      VisitAllSame(oracle, count - 1, before.prog, |before.prog|, terms);
      SameThrough(prog, before.prog, Passes(oracle, prog, count).prog);
    }
  }

  lemma TypedSame(oracle: Oracle, prog: seq<Instr>, empty: set<nat>)
    requires EndsInEOF(prog) && AlwaysDistinct(oracle) && EmptyKept(oracle, empty)
    requires WellTyped(prog, Terms(false, empty))
    ensures Same(prog, Optimized(oracle, prog).prog)
  {
    hide WellTyped, AlwaysDistinct, EmptyKept, Passes, Same;
    PassesSame(oracle, prog, PASS_COUNT, Terms(false, empty));
  }

  // ----- Functions -----

  lemma SameAgrees(a: seq<Instr>, b: seq<Instr>)
    requires Same(a, b)
    ensures A.Agrees(a) <==> A.Agrees(b)
  {
    hide S.ViewAll, S.Fits;
    forall h: nat -> int
      ensures S.Fits(A.At(FrameTracking.EMPTY), a, h) <==> S.Fits(A.At(FrameTracking.EMPTY), b, h)
    {
      assert SameFrom(A.At(FrameTracking.EMPTY), a, b, h);
    }
  }

  /** The end of the file changes nothing for code that ends at the height it is at. */
  lemma EndAgrees(prog: seq<Instr>, i: Instr)
    requires prog != [] && Still(prog[|prog| - 1]) && Still(i)
    ensures A.Agrees(prog + [i]) <==> A.Agrees(prog)
  {
    hide S.ViewAll, S.Fits, S.FitsAt, S.ViewAfter, Still;
    var v := A.At(FrameTracking.EMPTY);
    var k := |prog| - 1;
    A.ViewNext(prog, k);
    assert prog[..k + 1] == prog;
    forall h: nat -> int
      ensures S.Fits(v, prog + [i], h) <==> S.Fits(v, prog, h)
    {
      S.Concatenated(v, prog, [i], h);
      if S.Fits(v, prog, h) {
        A.FitsEverywhere(v, prog, h, k);
        StillLevel(prog[k], S.ViewAll(v, prog[..k]), h);
        StillLevel(i, S.ViewAll(v, prog), h);
        S.One(S.ViewAll(v, prog), i, h);
        FitsOne(S.ViewAll(v, prog), i, h);
      }
    }
  }

  lemma StillLevel(i: Instr, v: S.View, h: nat -> int)
    requires Still(i)
    ensures S.FitsAt(v, i, h) <==> S.Level(v)
    ensures S.ViewAfter(v, i) == v
  {
  }

  lemma FitsOne(v: S.View, i: Instr, h: nat -> int)
    ensures S.Fits(v, [i], h) <==> S.FitsAt(v, i, h)
  {
    hide S.FitsAt, S.ViewAfter;
    assert [i][1..] == [];
  }

  lemma {:induction false} ReturnSkipsNothing(ss: seq<H.Stmt>, last: H.Stmt, f: FrameTracking.Frame, x: int, y: int)
    requires last.Return?
    ensures A.AllSkipNothing(ss + [last], f, x, y) <==> A.AllSkipNothing(ss, f, x, y)
    decreases |ss|
  {
    hide A.SkipsNothing, A.AfterStmt;
    if ss == [] {
      assert ss + [last] == [last] && [last][1..] == [];
      ReturnAlone(last, f, x, y);
    } else {
      assert (ss + [last])[1..] == ss[1..] + [last];
      ReturnSkipsNothing(ss[1..], last, A.AfterStmt(ss[0], f), x, y);
    }
  }

  lemma ReturnAlone(s: H.Stmt, f: FrameTracking.Frame, x: int, y: int)
    requires s.Return?
    ensures A.SkipsNothing(s, f, x, y)
  {
  }

  /** The stack height of the optimized code of such a function agrees with the tracker, on every edge
      into every label, exactly when its breaks and continues skip no block that reserved stack. */
  lemma OptimizedAgrees(oracle: Oracle, empty: set<nat>, name: nat, parameters: seq<nat>, body: seq<H.Stmt>)
    requires H.StmtsOk(body, false) && C.Tame(body, empty) && EmptyKept(oracle, empty) && AlwaysDistinct(oracle)
    ensures A.Agrees(Optimized(oracle, C.Compiled(name, parameters, body)).prog)
      <==> A.FunctionSkipsNothing(parameters, body)
  {
    hide M.StmtsTypable, EmptyKept, Lowering.LowerFunction, AlwaysDistinct, Optimized, A.AllSkipNothing, A.Agrees,
      H.StmtsOk, WellTyped, Same;
    var b := FunctionSim.FunctionBody(body);
    var P := Lowering.LowerFunction(name, parameters, b);
    C.BodyTypable(body, Terms(false, empty));
    M.LoweredIsTyped(name, parameters, b, Terms(false, empty));
    TypedSame(oracle, C.Compiled(name, parameters, body), empty);
    SameAgrees(C.Compiled(name, parameters, body), Optimized(oracle, C.Compiled(name, parameters, body)).prog);
    FunctionEnds(name, parameters, b);
    EndAgrees(P, Lowering.END);
    FunctionSim.BodyOk(body);
    A.StackAgrees(name, parameters, b);
    if b != body {
      ReturnSkipsNothing(body, H.Return(None), A.AfterParameters(parameters, |parameters|), 0, 0);
    }
  }

  lemma FunctionEnds(name: nat, parameters: seq<nat>, body: seq<H.Stmt>)
    ensures var prog := Lowering.LowerFunction(name, parameters, body); prog != [] && Still(prog[|prog| - 1])
    ensures Still(Lowering.END)
  {
    hide Lowering.LowerAll, Lowering.LowerParameters;
  }

  /** So in every run of the optimized code rsp is as far below rbp as the tracker says. */
  lemma OptimizedRunsAgree(oracle: Oracle, empty: set<nat>, name: nat, parameters: seq<nat>, body: seq<H.Stmt>,
                           w: Environment.World, m: Machine, k: nat)
    requires H.StmtsOk(body, false) && C.Tame(body, empty) && EmptyKept(oracle, empty) && AlwaysDistinct(oracle)
    requires A.FunctionSkipsNothing(parameters, body) && m.pc == 0
    ensures var prog := Optimized(oracle, C.Compiled(name, parameters, body)).prog;
      var e := Run(prog, w, m, k);
      e.status.Running? && e.pc < |prog| && !prog[e.pc].op.JMP? ==>
        A.Depth(prog, w, m, 0, k) == A.Before(prog, e.pc).frame.reserved
  {
    hide C.Tame, EmptyKept, AlwaysDistinct, Optimized, A.FunctionSkipsNothing, A.Agrees, H.StmtsOk, C.Compiled,
      Run, A.Depth, A.Before;
    OptimizedAgrees(oracle, empty, name, parameters, body);
    A.AgreeingRuns(Optimized(oracle, C.Compiled(name, parameters, body)).prog, w, m, k);
  }
}
