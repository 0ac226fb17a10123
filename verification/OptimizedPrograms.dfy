/** The optimizer gets all functions of a program in one array, and does to each what it does to the
    function alone: no rule looks past the instructions that a function begins and ends with. */
module OptimizedPrograms {
  import opened Words
  import opened Lir
  import opened Lowering
  import opened Optimizing
  import opened Environment
  import opened Runs
  import opened FunctionSim
  import opened Compiler
  import Emission
  import ModePasses
  import ModeRules
  import H = Hir

  // ----- Code between markers -----

  /** An instruction at either end of a function, which no rule rewrites. */
  predicate Marker(i: Instr) {
    (i.op.START_FUNC? || i.op.END_FUNC? || i.op.EOF?) && !i.src.Register?
  }

  predicate Closed(code: seq<Instr>) {
    code != [] && Marker(code[0]) && Marker(code[|code| - 1])
  }

  /** The rest of the array. */
  predicate Remaining(code: seq<Instr>) {
    code != [] && Marker(code[0]) && code[|code| - 1] == END
  }

  /** Later indices count from where a part of the array begins. */
  function Shifted(oracle: Oracle, n: nat): Oracle {
    (pass: nat, index: nat) => oracle(pass, n + index)
  }

  // ----- Peeks -----

  lemma {:induction false} PeekInFront(A: seq<Instr>, B: seq<Instr>, position: nat, forward: bool)
    requires Closed(A) && Remaining(B) && position < |A|
    ensures PeekAt(A + B, position, forward) == PeekAt(A + [END], position, forward) < |A|
    decreases if forward then |A| - position else position
  {
    if A[position].op.NOP? {
      PeekInFront(A, B, if forward then position + 1 else position - 1, forward);
    }
  }

  lemma {:induction false} PeekInBack(A: seq<Instr>, B: seq<Instr>, position: nat, forward: bool)
    requires Remaining(B)
    ensures PeekAt(A + B, |A| + position, forward) == |A| + PeekAt(B, position, forward)
    decreases if forward then |B| - position else position
  {
    if position < |B| && B[position].op.NOP? {
      PeekInBack(A, B, if forward then position + 1 else position - 1, forward);
    }
  }

  /** From an index before the last marker the three instructions are the same with any code behind,
      or the third one is the marker there. */
  lemma FrontPeeks(A: seq<Instr>, B: seq<Instr>, index: nat)
    requires Closed(A) && Remaining(B) && index < |A|
    ensures Peek(A + B, index, 0) == Peek(A + [END], index, 0) < |A|
    ensures index + 1 == |A| ==> Peek(A + B, index, 0) == index
    ensures index + 1 < |A| ==> Peek(A + B, index, 1) == Peek(A + [END], index, 1) < |A|
    ensures var u := Peek(A + B, index, 2);
      index + 1 < |A| ==> u == Peek(A + [END], index, 2) && (u < |A| || (u == |A| && Marker(B[0])))
  {
    hide Marker;
    PeekInFront(A, B, index, false);
    if index + 1 < |A| {
      PeekInFront(A, B, index + 1, true);
      if index + 2 < |A| {
        PeekInFront(A, B, index + 2, true);
      } else {
        PeekInBack(A, B, 0, true);
        PeekInBack(A, [END], 0, true);
        MarkerStays(B);
        MarkerStays([END]);
      }
    } else {
      MarkerIsNoNop(A[index]);
    }
  }

  lemma MarkerIsNoNop(i: Instr)
    requires Marker(i)
    ensures !i.op.NOP?
  {
  }

  lemma MarkerStays(B: seq<Instr>)
    requires Remaining(B)
    ensures PeekAt(B, 0, true) == 0
  {
  }

  lemma BackPeeks(A: seq<Instr>, B: seq<Instr>, index: nat)
    requires Remaining(B)
    ensures Peek(A + B, |A| + index, 0) == |A| + Peek(B, index, 0)
    ensures Peek(A + B, |A| + index, 1) == |A| + Peek(B, index, 1)
    ensures Peek(A + B, |A| + index, 2) == |A| + Peek(B, index, 2)
  {
    hide PeekAt, Marker;
    PeekInBack(A, B, index, false);
    PeekInBack(A, B, index + 1, true);
    PeekInBack(A, B, index + 2, true);
  }

  // ----- Rules -----

  /** A rewrite of the front that does not depend on what is behind. */
  ghost predicate FrontOnly(A: seq<Instr>, B: seq<Instr>, x: seq<Instr>, y: seq<Instr>) {
    |x| == |A + B| && |y| == |A| + 1 && y[|A|] == END && x == y[..|A|] + B && Closed(y[..|A|])
  }

  lemma Untouched(A: seq<Instr>, B: seq<Instr>)
    requires Closed(A)
    ensures FrontOnly(A, B, A + B, A + [END])
  {
    assert (A + [END])[..|A|] == A;
  }

  /** Instructions other than markers are replaced in the front. */
  lemma FrontReplaced(A: seq<Instr>, B: seq<Instr>, t: nat, n: nat, v: Instr, w: Instr)
    requires Closed(A) && t < |A| && n < |A| && !Marker(A[t]) && !Marker(A[n])
    ensures FrontOnly(A, B, (A + B)[t := v][n := w], (A + [END])[t := v][n := w])
  {
    hide Marker;
    assert (A + [END])[t := v][n := w][..|A|] == A[t := v][n := w];
    assert (A + B)[t := v][n := w] == A[t := v][n := w] + B;
  }

  lemma FrontReplacedOne(A: seq<Instr>, B: seq<Instr>, t: nat, v: Instr)
    requires Closed(A) && t < |A| && !Marker(A[t])
    ensures FrontOnly(A, B, (A + B)[t := v], (A + [END])[t := v])
  {
    hide Marker;
    FrontReplaced(A, B, t, t, v, v);
    assert (A + B)[t := v][t := v] == (A + B)[t := v];
    assert (A + [END])[t := v][t := v] == (A + [END])[t := v];
  }

  lemma StackFront(g: Guards, A: seq<Instr>, B: seq<Instr>, index: nat)
    requires Closed(A) && Remaining(B) && index < |A|
    ensures FrontOnly(A, B, StackOperations(g, A + B, index).prog, StackOperations(g, A + [END], index).prog)
  {
    hide Peek, RegistersEqual, CanForward, CanMoveUp, CanPopInto, Known, FrontOnly, Closed;
    FrontPeeks(A, B, index);
    Untouched(A, B);
    var X, Y := A + B, A + [END];
    var t := Peek(X, index, 0);
    assert X[t] == Y[t] == A[t];
    if index + 1 == |A| {
      LastIsMarker(A);
    } else {
      var n, u := Peek(X, index, 1), Peek(X, index, 2);
      var a, b := A[t], A[n];
      assert X[n] == Y[n] == b;
      if a.op.PUSH? && b.op.POP? {
        var i := if !a.src.Register? then Instr(LOAD, b.dst, a.src)
                 else if RegistersEqual(g, a.src, b.dst) then Omit(b)
                 else Instr(STORE, b.dst, a.src);
        FrontReplaced(A, B, t, n, Omit(a), i);
      } else if a.op.LOAD? && a.dst.Register? && b.op.PUSH? && b.src.Register? && RegistersEqual(g, a.dst, b.src)
                && !a.src.Register? {
        FrontReplaced(A, B, t, n, Omit(a), b.(src := a.src));
      } else if a.op.PUSH? && IsMove(b.op) && X[u].op.POP? && !RegistersEqual(g, X[u].dst, b.dst) {
        assert X[u] == Y[u] == A[u];
        FrontReplaced(A, B, u, t, Omit(A[u]), Instr(LOAD, A[u].dst, a.src));
      } else {
        assert u < |A| ==> X[u] == Y[u];
        if a.op.POP? && IsMove(b.op) && a.dst.Register? && b.src.Register? && RegistersEqual(g, a.dst, b.src)
           && g.poppedAlike(a.dst, b.src) {
          FrontReplaced(A, B, t, n, Omit(a), b.(op := POP));
        }
      }
    }
  }

  lemma LastIsMarker(A: seq<Instr>)
    requires Closed(A)
    ensures Marker(A[|A| - 1])
  {
  }

  lemma LoadStoreFront(g: Guards, A: seq<Instr>, B: seq<Instr>, index: nat)
    requires Closed(A) && Remaining(B) && index < |A|
    ensures FrontOnly(A, B, LoadsAndStores(g, A + B, index).prog, LoadsAndStores(g, A + [END], index).prog)
  {
    hide Peek, RegistersEqual, CanForward, Known, FrontOnly, Closed;
    FrontPeeks(A, B, index);
    Untouched(A, B);
    var X, Y := A + B, A + [END];
    var t := Peek(X, index, 0);
    var a := A[t];
    assert X[t] == Y[t] == a;
    if index + 1 == |A| {
      LastIsMarker(A);
    } else {
      var n := Peek(X, index, 1);
      var b := A[n];
      assert X[n] == Y[n] == b;
      if IsMove(a.op) && a.dst.Register? && a.src.Register? && a.dst == a.src && g.movedAlike(a.dst, a.src) {
        FrontReplacedOne(A, B, t, Omit(a));
      } else if a.op.LOAD? && b.src.Register? {
        FrontReplaced(A, B, t, n, Omit(a), b.(src := a.src));
      }
    }
  }

  lemma MathFront(g: Guards, A: seq<Instr>, B: seq<Instr>, index: nat)
    requires Closed(A) && Remaining(B) && index < |A|
    ensures FrontOnly(A, B, MathOperations(g, A + B, index).prog, MathOperations(g, A + [END], index).prog)
  {
    hide Peek, RegistersEqual, CanForward, CanSwap, CanDrop, Known, FrontOnly, Closed, IsPowerOfTwo, ShiftFor, Bits;
    FrontPeeks(A, B, index);
    Untouched(A, B);
    var X, Y := A + B, A + [END];
    var t := Peek(X, index, 0);
    var a := A[t];
    assert X[t] == Y[t] == a;
    if index + 1 == |A| {
      LastIsMarker(A);
    } else {
      var n, u := Peek(X, index, 1), Peek(X, index, 2);
      var b := A[n];
      assert X[n] == Y[n] == b;
      if ((a.op.ADD? || a.op.SUB? || a.op.SHL? || a.op.SHR?) && a.src == Imm(0))
         || ((a.op.MUL? || a.op.DIV?) && a.src == Imm(1)) {
        FrontReplacedOne(A, B, t, Omit(a));
      } else if (a.op.MUL? || a.op.DIV?) && a.dst.Register? && a.src.Imm? && IsPowerOfTwo(Bits(a.src.n)) {
        FrontReplacedOne(A, B, t, Instr(if a.op.MUL? then SHL else SHR, a.dst, Imm(ShiftFor(a.src.n))));
      } else {
        assert u < |A| ==> X[u] == Y[u];
        if a.op.STORE? && a.dst.Register? && a.src.Register? && b.op.POP? && b.dst.Register? && a.src == b.dst
           && (X[u].op.ADD? || X[u].op.MUL?) && RegistersEqual(g, X[u].dst, b.dst)
           && RegistersEqual(g, X[u].src, a.dst) {
          FrontReplaced(A, B, t, n, Omit(a), b.(dst := a.dst));
        } else if a.op.STORE? && IsMath(b.op) {
          FrontReplaced(A, B, t, n, Omit(a), b.(src := a.src));
        }
      }
    }
  }

  lemma FoldFront(g: Guards, A: seq<Instr>, B: seq<Instr>, index: nat)
    requires Closed(A) && Remaining(B) && index < |A|
    ensures FrontOnly(A, B, ConstantFolding(g, A + B, index).prog, ConstantFolding(g, A + [END], index).prog)
  {
    hide Peek, CanDrop, FrontOnly, Closed, Fold, FoldsExactly, CombinesExactly;
    FrontPeeks(A, B, index);
    Untouched(A, B);
    var X, Y := A + B, A + [END];
    var t := Peek(X, index, 0);
    var a := A[t];
    assert X[t] == Y[t] == a;
    if index + 1 == |A| {
      LastIsMarker(A);
    } else {
      var n := Peek(X, index, 1);
      var b := A[n];
      assert X[n] == Y[n] == b;
      if (a.op.LOAD? || IsMath(a.op)) && IsMath(b.op) && a.src.Imm? && b.src.Imm? {
        var op := if a.op.LOAD? then b.op else a.op;
        FrontReplaced(A, B, n, t, Omit(b), a.(src := Imm(Fold(g, op, a.src.n, b.src.n))));
      }
    }
  }

  /** A rewrite behind the front that does not depend on it. */
  ghost predicate BackOnly(A: seq<Instr>, B: seq<Instr>, x: seq<Instr>, y: seq<Instr>) {
    |y| == |B| && x == A + y && Remaining(y)
  }

  lemma BackReplaced(A: seq<Instr>, B: seq<Instr>, t: nat, n: nat, v: Instr, w: Instr)
    requires Remaining(B) && t < |B| && n < |B| && !Marker(B[t]) && !Marker(B[n])
    ensures BackOnly(A, B, (A + B)[|A| + t := v][|A| + n := w], B[t := v][n := w])
  {
    assert Marker(END);
    assert (A + B)[|A| + t := v] == A + B[t := v];
  }

  lemma BackReplacedOne(A: seq<Instr>, B: seq<Instr>, t: nat, v: Instr)
    requires Remaining(B) && t < |B| && !Marker(B[t])
    ensures BackOnly(A, B, (A + B)[|A| + t := v], B[t := v])
  {
    assert Marker(END);
    assert (A + B)[|A| + t := v] == A + B[t := v];
  }

  lemma StackBack(g: Guards, A: seq<Instr>, B: seq<Instr>, index: nat)
    requires Remaining(B)
    ensures BackOnly(A, B, StackOperations(g, A + B, |A| + index).prog, StackOperations(g, B, index).prog)
  {
    hide Peek, RegistersEqual, CanForward, CanMoveUp, CanPopInto, Known;
    BackPeeks(A, B, index);
    hide BackOnly, Remaining;
    var t, n, u := Peek(B, index, 0), Peek(B, index, 1), Peek(B, index, 2);
    var a, b, d := B[t], B[n], B[u];
    SameBack(A, B);
    if a.op.PUSH? && b.op.POP? {
      var i := if !a.src.Register? then Instr(LOAD, b.dst, a.src)
               else if RegistersEqual(g, a.src, b.dst) then Omit(b)
               else Instr(STORE, b.dst, a.src);
      BackReplaced(A, B, t, n, Omit(a), i);
    } else if a.op.LOAD? && a.dst.Register? && b.op.PUSH? && b.src.Register? && RegistersEqual(g, a.dst, b.src)
              && !a.src.Register? {
      BackReplaced(A, B, t, n, Omit(a), b.(src := a.src));
    } else if a.op.PUSH? && IsMove(b.op) && d.op.POP? && !RegistersEqual(g, d.dst, b.dst) {
      BackReplaced(A, B, u, t, Omit(d), Instr(LOAD, d.dst, a.src));
    } else if a.op.POP? && IsMove(b.op) {
      BackReplaced(A, B, t, n, Omit(a), b.(op := POP));
    }
  }

  lemma SameBack(A: seq<Instr>, B: seq<Instr>)
    requires Remaining(B)
    ensures BackOnly(A, B, A + B, B)
  {
  }

  lemma LoadStoreBack(g: Guards, A: seq<Instr>, B: seq<Instr>, index: nat)
    requires Remaining(B)
    ensures BackOnly(A, B, LoadsAndStores(g, A + B, |A| + index).prog, LoadsAndStores(g, B, index).prog)
  {
    hide Peek, RegistersEqual, CanForward, Known;
    BackPeeks(A, B, index);
    hide BackOnly, Remaining;
    var t, n := Peek(B, index, 0), Peek(B, index, 1);
    var a, b := B[t], B[n];
    SameBack(A, B);
    if IsMove(a.op) && a.dst.Register? && a.src.Register? && a.dst == a.src && g.movedAlike(a.dst, a.src) {
      BackReplacedOne(A, B, t, Omit(a));
    } else if a.op.LOAD? && b.src.Register? {
      BackReplaced(A, B, t, n, Omit(a), b.(src := a.src));
    }
  }

  lemma MathBack(g: Guards, A: seq<Instr>, B: seq<Instr>, index: nat)
    requires Remaining(B)
    ensures BackOnly(A, B, MathOperations(g, A + B, |A| + index).prog, MathOperations(g, B, index).prog)
  {
    hide Peek, RegistersEqual, CanForward, CanSwap, CanDrop, Known, IsPowerOfTwo, ShiftFor, Bits;
    BackPeeks(A, B, index);
    hide BackOnly, Remaining;
    var t, n, u := Peek(B, index, 0), Peek(B, index, 1), Peek(B, index, 2);
    var a, b, d := B[t], B[n], B[u];
    SameBack(A, B);
    if ((a.op.ADD? || a.op.SUB? || a.op.SHL? || a.op.SHR?) && a.src == Imm(0))
       || ((a.op.MUL? || a.op.DIV?) && a.src == Imm(1)) {
      BackReplacedOne(A, B, t, Omit(a));
    } else if (a.op.MUL? || a.op.DIV?) && a.dst.Register? && a.src.Imm? && IsPowerOfTwo(Bits(a.src.n)) {
      BackReplacedOne(A, B, t, Instr(if a.op.MUL? then SHL else SHR, a.dst, Imm(ShiftFor(a.src.n))));
    } else if a.op.STORE? && a.dst.Register? && a.src.Register? && b.op.POP? && b.dst.Register? && a.src == b.dst
              && (d.op.ADD? || d.op.MUL?) && RegistersEqual(g, d.dst, b.dst) && RegistersEqual(g, d.src, a.dst) {
      BackReplaced(A, B, t, n, Omit(a), b.(dst := a.dst));
    } else if a.op.STORE? && IsMath(b.op) {
      BackReplaced(A, B, t, n, Omit(a), b.(src := a.src));
    }
  }

  lemma FoldBack(g: Guards, A: seq<Instr>, B: seq<Instr>, index: nat)
    requires Remaining(B)
    ensures BackOnly(A, B, ConstantFolding(g, A + B, |A| + index).prog, ConstantFolding(g, B, index).prog)
  {
    hide Peek, CanDrop, Fold, FoldsExactly, CombinesExactly;
    BackPeeks(A, B, index);
    hide BackOnly, Remaining;
    var t, n := Peek(B, index, 0), Peek(B, index, 1);
    var a, b := B[t], B[n];
    SameBack(A, B);
    if (a.op.LOAD? || IsMath(a.op)) && IsMath(b.op) && a.src.Imm? && b.src.Imm? {
      var op := if a.op.LOAD? then b.op else a.op;
      BackReplaced(A, B, n, t, Omit(b), a.(src := Imm(Fold(g, op, a.src.n, b.src.n))));
    }
  }

  // ----- Visits -----

  /** What is in front of the rest, without the end of a function alone. */
  function Front(y: seq<Instr>): seq<Instr>
    requires y != []
  {
    y[..|y| - 1]
  }

  lemma FrontThen(A: seq<Instr>, B: seq<Instr>, x: seq<Instr>, y: seq<Instr>)
    requires FrontOnly(A, B, x, y)
    ensures Closed(Front(y)) && x == Front(y) + B && y == Front(y) + [END] && |Front(y)| == |A|
  {
    hide Closed;
  }

  lemma VisitFront(g: Guards, A: seq<Instr>, B: seq<Instr>, index: nat)
    requires Closed(A) && Remaining(B) && index < |A| && EndsInEOF(A + B) && EndsInEOF(A + [END])
    ensures FrontOnly(A, B, Visit(g, A + B, index).prog, Visit(g, A + [END], index).prog)
  {
    hide StackOperations, LoadsAndStores, MathOperations, ConstantFolding, FrontOnly, Closed, Remaining;
    ArrayEnds(A, B);
    RulesKeepShape(g, A + B, index);
    RulesKeepShape(g, A + [END], index);
    StackFront(g, A, B, index);
    var x1, y1 := StackOperations(g, A + B, index).prog, StackOperations(g, A + [END], index).prog;
    FrontThen(A, B, x1, y1);
    RulesKeepShape(g, x1, index);
    RulesKeepShape(g, y1, index);
    LoadStoreFront(g, Front(y1), B, index);
    var x2, y2 := LoadsAndStores(g, x1, index).prog, LoadsAndStores(g, y1, index).prog;
    FrontThen(Front(y1), B, x2, y2);
    RulesKeepShape(g, x2, index);
    RulesKeepShape(g, y2, index);
    MathFront(g, Front(y2), B, index);
    var x3, y3 := MathOperations(g, x2, index).prog, MathOperations(g, y2, index).prog;
    FrontThen(Front(y2), B, x3, y3);
    RulesKeepShape(g, x3, index);
    RulesKeepShape(g, y3, index);
    FoldFront(g, Front(y3), B, index);
    var x4, y4 := ConstantFolding(g, x3, index).prog, ConstantFolding(g, y3, index).prog;
    FrontOf(A, Front(y3), B, x4, y4);
  }

  lemma FrontOf(A: seq<Instr>, A': seq<Instr>, B: seq<Instr>, x: seq<Instr>, y: seq<Instr>)
    requires FrontOnly(A', B, x, y) && |A'| == |A|
    ensures FrontOnly(A, B, x, y)
  {
    hide Closed;
  }

  lemma ArrayEnds(A: seq<Instr>, B: seq<Instr>)
    requires Remaining(B)
    ensures EndsInEOF(A + B) && EndsInEOF(A + [END]) && EndsInEOF(B)
  {
  }

  lemma VisitBack(g: Guards, A: seq<Instr>, B: seq<Instr>, index: nat)
    requires Remaining(B) && EndsInEOF(A + B) && EndsInEOF(B)
    ensures BackOnly(A, B, Visit(g, A + B, |A| + index).prog, Visit(g, B, index).prog)
  {
    hide StackOperations, LoadsAndStores, MathOperations, ConstantFolding, BackOnly, Remaining;
    ArrayEnds(A, B);
    var i := |A| + index;
    RulesKeepShape(g, A + B, i);
    RulesKeepShape(g, B, index);
    StackBack(g, A, B, index);
    var x1, y1 := StackOperations(g, A + B, i).prog, StackOperations(g, B, index).prog;
    BackThen(A, B, x1, y1);
    RulesKeepShape(g, x1, i);
    RulesKeepShape(g, y1, index);
    LoadStoreBack(g, A, y1, index);
    var x2, y2 := LoadsAndStores(g, x1, i).prog, LoadsAndStores(g, y1, index).prog;
    BackThen(A, y1, x2, y2);
    RulesKeepShape(g, x2, i);
    RulesKeepShape(g, y2, index);
    MathBack(g, A, y2, index);
    var x3, y3 := MathOperations(g, x2, i).prog, MathOperations(g, y2, index).prog;
    BackThen(A, y2, x3, y3);
    RulesKeepShape(g, x3, i);
    RulesKeepShape(g, y3, index);
    FoldBack(g, A, y3, index);
    BackOf(A, B, y3, ConstantFolding(g, x3, i).prog, ConstantFolding(g, y3, index).prog);
  }

  lemma BackThen(A: seq<Instr>, B: seq<Instr>, x: seq<Instr>, y: seq<Instr>)
    requires BackOnly(A, B, x, y)
    ensures Remaining(y) && x == A + y && |y| == |B|
  {
  }

  lemma BackOf(A: seq<Instr>, B: seq<Instr>, B': seq<Instr>, x: seq<Instr>, y: seq<Instr>)
    requires BackOnly(A, B', x, y) && |B'| == |B|
    ensures BackOnly(A, B, x, y)
  {
  }

  /** Nothing happens at the end. */
  lemma VisitEnd(g: Guards, prog: seq<Instr>)
    requires EndsInEOF(prog)
    ensures Visit(g, prog, |prog| - 1).prog == prog
  {
    hide PeekAt, RegistersEqual, CanForward, CanMoveUp, CanPopInto, CanSwap, CanDrop, Known, Forward, Fold,
      FoldsExactly, CombinesExactly, IsPowerOfTwo, ShiftFor, Bits;
    LastPeeked(prog);
  }

  lemma LastPeeked(prog: seq<Instr>)
    requires EndsInEOF(prog)
    ensures PeekAt(prog, |prog| - 1, false) == |prog| - 1
  {
  }

  // ----- Passes -----

  lemma {:induction false} VisitsFront(oracle: Oracle, pass: nat, A: seq<Instr>, B: seq<Instr>, count: nat)
    requires Closed(A) && Remaining(B) && count <= |A|
    ensures EndsInEOF(A + B) && EndsInEOF(A + [END])
    ensures FrontOnly(A, B, VisitAll(oracle, pass, A + B, count).prog, VisitAll(oracle, pass, A + [END], count).prog)
    decreases count
  {
    hide Visit, FrontOnly, Closed, Remaining;
    ArrayEnds(A, B);
    if count == 0 {
      Untouched(A, B);
    } else {
      VisitsFront(oracle, pass, A, B, count - 1);
      var x, y := VisitAll(oracle, pass, A + B, count - 1).prog, VisitAll(oracle, pass, A + [END], count - 1).prog;
      FrontThen(A, B, x, y);
      ArrayEnds(Front(y), B);
      VisitFront(oracle(pass, count - 1), Front(y), B, count - 1);
      FrontOf(A, Front(y), B, VisitAll(oracle, pass, A + B, count).prog, VisitAll(oracle, pass, A + [END], count).prog);
    }
  }

  lemma {:induction false} VisitsBack(oracle: Oracle, pass: nat, prog: seq<Instr>, A: seq<Instr>, B: seq<Instr>,
                                      count: nat)
    requires Remaining(B) && EndsInEOF(prog) && VisitAll(oracle, pass, prog, |A|).prog == A + B
    ensures EndsInEOF(B)
    ensures BackOnly(A, B, VisitAll(oracle, pass, prog, |A| + count).prog,
                     VisitAll(Shifted(oracle, |A|), pass, B, count).prog)
    decreases count
  {
    hide Visit, BackOnly, Remaining;
    ArrayEnds(A, B);
    if count == 0 {
      SameBack(A, B);
    } else {
      VisitsBack(oracle, pass, prog, A, B, count - 1);
      var x := VisitAll(oracle, pass, prog, |A| + count - 1).prog;
      var y := VisitAll(Shifted(oracle, |A|), pass, B, count - 1).prog;
      BackThen(A, B, x, y);
      ArrayEnds(A, y);
      VisitBack(oracle(pass, |A| + count - 1), A, y, count - 1);
      BackOf(A, B, y, VisitAll(oracle, pass, prog, |A| + count).prog,
             VisitAll(Shifted(oracle, |A|), pass, B, count).prog);
    }
  }

  /** A whole pass does to the two parts what it does to each alone. */
  lemma PassApart(oracle: Oracle, pass: nat, A: seq<Instr>, B: seq<Instr>)
    requires Closed(A) && Remaining(B)
    ensures EndsInEOF(A + B) && EndsInEOF(A + [END]) && EndsInEOF(B)
    ensures var x := VisitAll(oracle, pass, A + B, |A + B|).prog;
      var y := VisitAll(oracle, pass, A + [END], |A + [END]|).prog;
      var z := VisitAll(Shifted(oracle, |A|), pass, B, |B|).prog;
      |y| == |A| + 1 && x == Front(y) + z && y == Front(y) + [END] && Closed(Front(y)) && Remaining(z)
  {
    hide VisitAll, Visit, FrontOnly, BackOnly, Closed, Remaining, Front;
    ArrayEnds(A, B);
    VisitsFront(oracle, pass, A, B, |A|);
    var y := VisitAll(oracle, pass, A + [END], |A|).prog;
    FrontThen(A, B, VisitAll(oracle, pass, A + B, |A|).prog, y);
    LastVisit(oracle, pass, A + [END], y);
    VisitsBack(oracle, pass, A + B, Front(y), B, |B|);
    BackThen(Front(y), B, VisitAll(oracle, pass, A + B, |A| + |B|).prog,
             VisitAll(Shifted(oracle, |A|), pass, B, |B|).prog);
  }

  lemma LastVisit(oracle: Oracle, pass: nat, prog: seq<Instr>, y: seq<Instr>)
    requires EndsInEOF(prog) && VisitAll(oracle, pass, prog, |prog| - 1).prog == y
    ensures VisitAll(oracle, pass, prog, |prog|).prog == y
  {
    hide Visit;
    VisitEnd(oracle(pass, |prog| - 1), y);
  }

  lemma {:induction false} PassesApart(oracle: Oracle, A: seq<Instr>, B: seq<Instr>, count: nat)
    requires Closed(A) && Remaining(B)
    ensures EndsInEOF(A + B) && EndsInEOF(A + [END]) && EndsInEOF(B)
    ensures var x, y := Passes(oracle, A + B, count).prog, Passes(oracle, A + [END], count).prog;
      var z := Passes(Shifted(oracle, |A|), B, count).prog;
      |y| == |A| + 1 && x == Front(y) + z && y == Front(y) + [END] && Closed(Front(y)) && Remaining(z)
    decreases count
  {
    hide VisitAll, Closed, Remaining;
    ArrayEnds(A, B);
    if count > 0 {
      PassesApart(oracle, A, B, count - 1);
      var y, z := Passes(oracle, A + [END], count - 1).prog, Passes(Shifted(oracle, |A|), B, count - 1).prog;
      PassApart(oracle, count - 1, Front(y), z);
    }
  }

  /** The whole optimizer, too. */
  lemma OptimizedApart(oracle: Oracle, A: seq<Instr>, B: seq<Instr>)
    requires Closed(A) && Remaining(B)
    ensures EndsInEOF(A + B) && EndsInEOF(A + [END]) && EndsInEOF(B)
    ensures Optimized(oracle, A + B).prog
      == Front(Optimized(oracle, A + [END]).prog) + Optimized(Shifted(oracle, |A|), B).prog
  {
    hide Passes, Closed, Remaining, Front;
    PassesApart(oracle, A, B, PASS_COUNT);
  }

  // ----- Functions -----

  function FunctionCode(f: Emission.Routine): (r: seq<Instr>)
    ensures Closed(r)
  {
    hide LowerAll, LowerParameters;
    LowerFunction(f.name, f.parameters, f.body)
  }

  /** Each function optimized alone, with the verdicts that the array has at its place. */
  ghost function Separately(oracle: Oracle, functions: seq<Emission.Routine>): seq<Instr> {
    if functions == [] then []
    else
      var front, last := functions[..|functions| - 1], functions[|functions| - 1];
      Separately(oracle, front)
      + Front(Optimized(Shifted(oracle, |Emission.LowerRoutines(front)|), FunctionCode(last) + [END]).prog)
  }

  lemma {:induction false} RoutinesClosed(functions: seq<Emission.Routine>)
    requires functions != []
    ensures Closed(Emission.LowerRoutines(functions))
    decreases |functions|
  {
    hide LowerFunction;
    var front, last := functions[..|functions| - 1], functions[|functions| - 1];
    var code := FunctionCode(last);
    if front != [] {
      RoutinesClosed(front);
    }
  }

  /** The end of the array stays. */
  lemma EndStays(oracle: Oracle, A: seq<Instr>)
    requires Closed(A)
    ensures EndsInEOF(A + [END])
    ensures var y := Optimized(oracle, A + [END]).prog; |y| == |A| + 1 && y == Front(y) + [END]
  {
    hide Passes, Closed, Front;
    PassesApart(oracle, A, [END], PASS_COUNT);
  }

  lemma {:induction false} NothingToDo(oracle: Oracle, count: nat)
    ensures Passes(oracle, [END], count).prog == [END]
    decreases count
  {
    hide Visit;
    if count > 0 {
      NothingToDo(oracle, count - 1);
      LastVisit(oracle, count - 1, [END], [END]);
    }
  }

  lemma {:induction false} AlikeVisits(o: Oracle, o': Oracle, pass: nat, prog: seq<Instr>, count: nat)
    requires EndsInEOF(prog) && forall p: nat, i: nat :: o(p, i) == o'(p, i)
    ensures VisitAll(o, pass, prog, count) == VisitAll(o', pass, prog, count)
    decreases count
  {
    hide Visit;
    if count > 0 {
      AlikeVisits(o, o', pass, prog, count - 1);
    }
  }

  lemma {:induction false} AlikePasses(o: Oracle, o': Oracle, prog: seq<Instr>, count: nat)
    requires EndsInEOF(prog) && forall p: nat, i: nat :: o(p, i) == o'(p, i)
    ensures Passes(o, prog, count) == Passes(o', prog, count)
    decreases count
  {
    hide VisitAll;
    if count > 0 {
      AlikePasses(o, o', prog, count - 1);
      var before := Passes(o, prog, count - 1).prog;
      AlikeVisits(o, o', count - 1, before, |before|);
    }
  }

  /** Optimizing the array of a program optimizes each of its functions alone. */
  lemma {:induction false} OptimizedSeparately(oracle: Oracle, functions: seq<Emission.Routine>)
    ensures EndsInEOF(Emission.LowerRoutines(functions) + [END])
    ensures Optimized(oracle, Emission.LowerRoutines(functions) + [END]).prog == Separately(oracle, functions) + [END]
    decreases |functions|
  {
    hide Passes, Closed, LowerFunction, Front;
    if functions == [] {
      NothingToDo(oracle, PASS_COUNT);
      assert Emission.LowerRoutines(functions) + [END] == [END];
    } else {
      var front, last := functions[..|functions| - 1], functions[|functions| - 1];
      var A, code := Emission.LowerRoutines(front), FunctionCode(last);
      EndStays(Shifted(oracle, |A|), code);
      if front == [] {
        AlikePasses(oracle, Shifted(oracle, |A|), code + [END], PASS_COUNT);
        assert A + code == code;
      } else {
        RoutinesClosed(front);
        OptimizedSeparately(oracle, front);
        CodeRemains(code);
        OptimizedApart(oracle, A, code + [END]);
        assert A + code + [END] == A + (code + [END]);
        FrontAppended(Separately(oracle, front));
      }
    }
  }

  lemma CodeRemains(code: seq<Instr>)
    requires Closed(code)
    ensures Remaining(code + [END])
  {
  }

  lemma FrontAppended(a: seq<Instr>)
    ensures Front(a + [END]) == a
  {
  }

  /** Where the code of function k begins in the array. */
  function Place(functions: seq<Emission.Routine>, k: nat): nat
    requires k <= |functions|
  {
    |Emission.LowerRoutines(functions[..k])|
  }

  lemma {:induction false} SeparateLength(oracle: Oracle, functions: seq<Emission.Routine>)
    ensures |Separately(oracle, functions)| == |Emission.LowerRoutines(functions)|
    decreases |functions|
  {
    hide LowerFunction, Optimized;
    if functions != [] {
      var front, last := functions[..|functions| - 1], functions[|functions| - 1];
      var code := FunctionCode(last);
      SeparateLength(oracle, front);
      EndStays(Shifted(oracle, |Emission.LowerRoutines(front)|), code);
    }
  }

  lemma {:induction false} SeparatePrefix(oracle: Oracle, functions: seq<Emission.Routine>, k: nat)
    requires k <= |functions|
    ensures Separately(oracle, functions[..k]) <= Separately(oracle, functions)
    decreases |functions|
  {
    hide LowerFunction, Optimized, Front;
    if k == |functions| {
      assert functions[..k] == functions;
    } else {
      var front := functions[..|functions| - 1];
      SeparatePrefix(oracle, front, k);
      assert front[..k] == functions[..k];
    }
  }

  /** The part of the optimized array that function k was, with an EOF of its own. */
  ghost function Placed(oracle: Oracle, functions: seq<Emission.Routine>, k: nat): (r: seq<Instr>)
    requires k < |functions|
    ensures r == Optimized(Shifted(oracle, Place(functions, k)), FunctionCode(functions[k]) + [END]).prog
  {
    OptimizedSeparately(oracle, functions);
    PlacedAlone(oracle, functions, k);
    Optimized(oracle, Emission.LowerRoutines(functions) + [END]).prog[Place(functions, k)..Place(functions, k + 1)]
    + [END]
  }

  lemma PlacedAlone(oracle: Oracle, functions: seq<Emission.Routine>, k: nat)
    requires k < |functions|
    ensures EndsInEOF(Emission.LowerRoutines(functions) + [END])
    ensures var whole := Optimized(oracle, Emission.LowerRoutines(functions) + [END]).prog;
      && Place(functions, k) <= Place(functions, k + 1) <= |whole|
      && whole[Place(functions, k)..Place(functions, k + 1)] + [END]
        == Optimized(Shifted(oracle, Place(functions, k)), FunctionCode(functions[k]) + [END]).prog
  {
    hide LowerFunction, Optimized, Front, Separately, Emission.LowerRoutines;
    var n := Place(functions, k);
    EndStays(Shifted(oracle, n), FunctionCode(functions[k]));
    var one := Front(Optimized(Shifted(oracle, n), FunctionCode(functions[k]) + [END]).prog);
    OptimizedSeparately(oracle, functions);
    SeparatePrefix(oracle, functions, k + 1);
    SeparateLength(oracle, functions[..k]);
    SeparateLength(oracle, functions[..k + 1]);
    SeparateStep(oracle, functions, k);
    Sliced(Separately(oracle, functions), Separately(oracle, functions[..k]), one, [END]);
  }

  lemma SeparateStep(oracle: Oracle, functions: seq<Emission.Routine>, k: nat)
    requires k < |functions|
    ensures Separately(oracle, functions[..k + 1]) == Separately(oracle, functions[..k])
      + Front(Optimized(Shifted(oracle, Place(functions, k)), FunctionCode(functions[k]) + [END]).prog)
  {
    hide LowerFunction, Optimized, Front, Emission.LowerRoutines;
    assert functions[..k + 1][..k] == functions[..k];
  }

  lemma Sliced(all: seq<Instr>, before: seq<Instr>, one: seq<Instr>, end: seq<Instr>)
    requires before + one <= all
    ensures (all + end)[|before|..|before + one|] == one
  {
    assert all[..|before + one|] == before + one;
  }

  lemma ShiftedAlways(oracle: Oracle, n: nat, empty: set<nat>)
    requires ModePasses.AlwaysDistinct(oracle) && ModePasses.EmptyKept(oracle, empty)
    ensures ModePasses.AlwaysDistinct(Shifted(oracle, n)) && ModePasses.EmptyKept(Shifted(oracle, n), empty)
  {
    hide ModeRules.Distinct, ModeRules.KeepsEmpty;
  }

  /** So in the optimized array of a program every function that meets the conditions halts exactly when
      its source terminates, and only in the way the source ends, whatever the other functions are. */
  lemma ProgramCorrect(oracle: Oracle, empty: set<nat>, functions: seq<Emission.Routine>, k: nat, w: World,
                       start: Machine)
    requires k < |functions|
    requires var f := functions[k];
      && H.StmtsOk(f.body, false) && TameArithmetic(f.body, empty) && f.body == FunctionBody(f.body)
      && ModeRules.TotalWeight(Compiled(f.name, f.parameters, f.body)) <= ModeRules.MOST
      && |f.parameters| <= MAX_REGISTER_ARGUMENTS + |w.incoming|
    requires ModePasses.EmptyKept(oracle, empty) && ModePasses.AlwaysDistinct(oracle) && IsEntry(start)
    ensures var f := functions[k];
      var prog := Placed(oracle, functions, k);
      && (Halts(prog, w, start) <==> Terminates(w, start.slots, f.parameters, f.body))
      && (forall j: nat, fuel: nat ::
            var m := Run(prog, w, start, j);
            var r := SourceRun(w, fuel, start.slots, f.parameters, f.body);
            !m.status.Running? && !r.OutOfFuel? ==> SameEnd(m, r))
  {
    hide TameArithmetic, ModePasses.EmptyKept, ModePasses.AlwaysDistinct, Optimized, ModeRules.TotalWeight, H.StmtsOk,
      Run, SourceRun, SameEnd, Terminates, Halts, Placed, LowerFunction, FunctionBody, Place;
    var f, n := functions[k], Place(functions, k);
    ShiftedAlways(oracle, n, empty);
    TameCorrect(Shifted(oracle, n), empty, f.name, f.parameters, f.body, w, start);
  }
}
