/** Lowered functions are typed: every expression leaves its value in the first temporary with the kind
    its source has, and no register matters between statements. */
module ModeLowering {
  import opened Words
  import opened Lir
  import opened Lowering
  import opened Modes
  import E = ExprSim
  import H = Hir

  // ----- The programs it is claimed for -----

  /** An argument whose code touches the first temporary only. */
  predicate PlainArgument(e: H.Expr) {
    match e
    case Literal(_) => true
    case Variable(_) => true
    case Unary(_, operand) => PlainArgument(operand)
    case Cast(value) => PlainArgument(value)
    case _ => false
  }

  /** At most six arguments, each one complex or plain; any one that nothing is evaluated before. */
  predicate TameArguments(es: seq<H.Expr>) {
    |es| <= MAX_REGISTER_ARGUMENTS && forall i :: 0 <= i < |es| ==> TameArgument(es, i)
  }

  predicate TameArgument(es: seq<H.Expr>, i: nat)
    requires i < |es|
  {
    || H.IsComplex(es[i])
    || PlainArgument(es[i])
    || (i == |es| - 1 && forall j :: 0 <= j < |es| ==> !H.IsComplex(es[j]))
  }

  predicate TameExpr(e: H.Expr) {
    match e
    case Literal(_) => true
    case Variable(_) => true
    case Math(first, rest) => TameExpr(first) && forall i :: 0 <= i < |rest| ==> TameExpr(rest[i].operand)
    case Condition(head, links) =>
      TameComparison(head) && forall i :: 0 <= i < |links| ==> TameComparison(links[i].comparison)
    case Unary(_, operand) => TameExpr(operand)
    case Cast(value) => TameExpr(value)
    case Call(_, arguments) => TameArguments(arguments) && forall i :: 0 <= i < |arguments| ==> TameExpr(arguments[i])
  }

  predicate TameComparison(c: H.Comparison) {
    TameExpr(c.lhs) && TameExpr(c.rhs)
  }

  /** Every call is tame, breaks are in loops, and every `for` starts from a written value or has a
      counter that may be given the empty one. */
  predicate TameStmt(s: H.Stmt, inLoop: bool, empty: set<nat>)
    decreases s
  {
    match s
    case Skip => true
    case Block(body) => forall i :: 0 <= i < |body| ==> TameStmt(body[i], inLoop, empty)
    case Declare(_, initial) => initial.Some? ==> TameExpr(initial.value)
    case Assign(_, value) => TameExpr(value)
    case CallStmt(callee, arguments) => TameExpr(H.Call(callee, arguments))
    case If(condition, body, otherwise) =>
      && TameExpr(condition)
      && (forall i :: 0 <= i < |body| ==> TameStmt(body[i], inLoop, empty))
      && (forall i :: 0 <= i < |otherwise| ==> TameStmt(otherwise[i], inLoop, empty))
    case While(condition, body, _) =>
      TameExpr(condition) && forall i :: 0 <= i < |body| ==> TameStmt(body[i], true, empty)
    case For(counter, initializer, condition, increment, _, body) =>
      && (if initializer.Some? then TameExpr(initializer.value) else counter in empty)
      && TameExpr(condition) && TameExpr(increment)
      && (forall i :: 0 <= i < |body| ==> TameStmt(body[i], true, empty))
    case Break => inLoop
    case Continue => inLoop
    case Return(result) => result.Some? ==> TameExpr(result.value)
  }

  // ----- Kinds of source expressions -----

  /** What is known of an expression's value, from the tree of each operator list. */
  ghost function ExprKind(e: H.Expr): Kind
    decreases e
  {
    match e
    case Literal(n) => Constant(n)
    case Math(first, rest) => ListKind(e, first, rest)
    case Cast(value) => ExprKind(value)
    case _ => Fresh
  }

  ghost function ListKind(parent: H.Expr, first: H.Expr, rest: seq<H.Term>): Kind
    requires first < parent && H.TermsBelow(rest, parent)
    decreases parent, |rest|
  {
    if rest == [] then ExprKind(first)
    else
      var k := H.SplitPoint(rest);
      OperationKind(MathOpcode(rest[k].op), ListKind(parent, first, rest[..k]),
                    ListKind(parent, rest[k].operand, rest[k + 1..]))
  }

  /** The operators that stand next to constants may stand there. */
  ghost predicate SumsOnly(parent: H.Expr, first: H.Expr, rest: seq<H.Term>)
    requires first < parent && H.TermsBelow(rest, parent)
    decreases |rest|
  {
    rest == [] ||
    var k := H.SplitPoint(rest);
    && SumsOnly(parent, first, rest[..k])
    && SumsOnly(parent, rest[k].operand, rest[k + 1..])
    && OperationOk(MathOpcode(rest[k].op), ListKind(parent, first, rest[..k]),
                   ListKind(parent, rest[k].operand, rest[k + 1..]))
  }

  ghost predicate ArithmeticOk(e: H.Expr)
    decreases e
  {
    match e
    case Literal(_) => true
    case Variable(_) => true
    case Math(first, rest) =>
      && ArithmeticOk(first) && (forall i :: 0 <= i < |rest| ==> ArithmeticOk(rest[i].operand))
      && SumsOnly(e, first, rest)
    case Condition(head, links) =>
      ComparisonArithmetic(head) && forall i :: 0 <= i < |links| ==> ComparisonArithmetic(links[i].comparison)
    case Unary(_, operand) => ArithmeticOk(operand)
    case Cast(value) => ArithmeticOk(value)
    case Call(_, arguments) => forall i :: 0 <= i < |arguments| ==> ArithmeticOk(arguments[i])
  }

  ghost predicate ComparisonArithmetic(c: H.Comparison) {
    ArithmeticOk(c.lhs) && ArithmeticOk(c.rhs)
  }

  /** An expression whose code can be typed. */
  ghost predicate Typable(e: H.Expr, terms: Terms) {
    TameExpr(e) && (terms.checked ==> ArithmeticOk(e))
  }

  // ----- Code between two states -----

  ghost predicate Flows(code: seq<Instr>, s: State, s': State, labels: Labelling, terms: Terms) {
    exists states: seq<State> :: FlowsBy(code, states, s, s', labels, terms)
  }

  ghost predicate FlowsBy(code: seq<Instr>, states: seq<State>, s: State, s': State, labels: Labelling, terms: Terms) {
    Typed(code, states, labels, terms) && states[0] == s && states[|code|] == s'
  }

  lemma FlowsNone(s: State, labels: Labelling, terms: Terms)
    ensures Flows([], s, s, labels, terms)
  {
    assert FlowsBy([], [s], s, s, labels, terms);
  }

  lemma FlowsOne(i: Instr, s: State, s': State, labels: Labelling, terms: Terms)
    requires Fits(i, s, s', labels, terms)
    ensures Flows([i], s, s', labels, terms)
  {
    hide Fits;
    assert FitsAt([i], [s, s'], labels, terms, 0);
    assert FlowsBy([i], [s, s'], s, s', labels, terms);
  }

  lemma FlowsBoth(a: seq<Instr>, b: seq<Instr>, s: State, m: State, s': State, labels: Labelling, terms: Terms)
    requires Flows(a, s, m, labels, terms) && Flows(b, m, s', labels, terms)
    ensures Flows(a + b, s, s', labels, terms)
  {
    hide Fits;
    var x :| FlowsBy(a, x, s, m, labels, terms);
    var y :| FlowsBy(b, y, m, s', labels, terms);
    var both := x + y[1..];
    forall k | 0 <= k < |a + b|
      ensures FitsAt(a + b, both, labels, terms, k)
    {
      if k < |a| {
        assert FitsAt(a, x, labels, terms, k);
      } else {
        assert FitsAt(b, y, labels, terms, k - |a|);
        assert both[k] == y[k - |a|] && both[k + 1] == y[k - |a| + 1];
      }
    }
    assert FlowsBy(a + b, both, s, s', labels, terms);
  }

  /** The second labelling knows all labels of the first, with the same states. */
  ghost predicate Extends(labels: Labelling, labels': Labelling) {
    forall id :: id in labels ==> id in labels' && labels'[id] == labels[id]
  }

  lemma FitsMore(i: Instr, s: State, s': State, labels: Labelling, labels': Labelling, terms: Terms)
    requires Fits(i, s, s', labels, terms) && Extends(labels, labels')
    ensures Fits(i, s, s', labels', terms)
  {
    hide After, Le, Reaches, CallFits, ArithmeticFits;
  }

  lemma FlowsMore(code: seq<Instr>, s: State, s': State, labels: Labelling, labels': Labelling, terms: Terms)
    requires Flows(code, s, s', labels, terms) && Extends(labels, labels')
    ensures Flows(code, s, s', labels', terms)
  {
    hide Fits, Extends;
    var x :| FlowsBy(code, x, s, s', labels, terms);
    forall k | 0 <= k < |code|
      ensures FitsAt(code, x, labels', terms, k)
    {
      assert FitsAt(code, x, labels, terms, k);
      FitsMore(code[k], x[k], x[k + 1], labels, labels', terms);
    }
    assert FlowsBy(code, x, s, s', labels', terms);
  }

  lemma FitsOut(i: Instr, s: State, m: State, s': State, labels: Labelling, terms: Terms)
    requires Fits(i, s, m, labels, terms) && Le(m, s')
    ensures Fits(i, s, s', labels, terms)
  {
    hide After, Le, Reaches, CallFits, ArithmeticFits;
    PushedLe(m, s');
    forall x: State | Le(x, m)
      ensures Le(x, s')
    {
      LeTransitive(x, m, s');
    }
  }

  lemma PushedLe(m: State, s: State)
    requires Le(m, s)
    ensures s.mode.Pushed? ==> m.mode.Pushed?
  {
  }

  /** Code that does something may end in a less certain state. */
  lemma FlowsOut(code: seq<Instr>, s: State, m: State, s': State, labels: Labelling, terms: Terms)
    requires Flows(code, s, m, labels, terms) && Le(m, s') && code != []
    ensures Flows(code, s, s', labels, terms)
  {
    hide Fits, Le;
    var x :| FlowsBy(code, x, s, m, labels, terms);
    var y := x[|code| := s'];
    forall k | 0 <= k < |code|
      ensures FitsAt(code, y, labels, terms, k)
    {
      assert FitsAt(code, x, labels, terms, k);
      if k == |code| - 1 {
        FitsOut(code[k], x[k], m, s', labels, terms);
      }
    }
    assert FlowsBy(code, y, s, s', labels, terms);
  }

  /** Labels of two neighbouring pieces. */
  ghost predicate Numbered(labels: Labelling, n: nat, next: nat) {
    forall id :: id in labels ==> n <= id < next
  }

  lemma FlowsApart(a: seq<Instr>, b: seq<Instr>, s: State, m: State, s': State, la: Labelling, lb: Labelling,
                   n: nat, mid: nat, next: nat, terms: Terms)
    requires Flows(a, s, m, la, terms) && Flows(b, m, s', lb, terms)
    requires Numbered(la, n, mid) && Numbered(lb, mid, next) && n <= mid <= next
    ensures Flows(a + b, s, s', la + lb, terms) && Numbered(la + lb, n, next)
  {
    hide Flows;
    FlowsMore(a, s, m, la, la + lb, terms);
    FlowsMore(b, m, s', lb, la + lb, terms);
    FlowsBoth(a, b, s, m, s', la + lb, terms);
  }

  lemma FlowsThen(a: seq<Instr>, b: seq<Instr>, s: State, m: State, s': State, labels: Labelling, terms: Terms)
    requires Flows(a, s, m, labels, terms) && Flows(b, m, s', map[], terms)
    ensures Flows(a + b, s, s', labels, terms)
  {
    hide Flows;
    FlowsMore(b, m, s', map[], labels, terms);
    FlowsBoth(a, b, s, m, s', labels, terms);
  }

  /** Two instructions. */
  lemma FlowsTwo(i: Instr, j: Instr, s: State, m: State, s': State, labels: Labelling, terms: Terms)
    requires Fits(i, s, m, labels, terms) && Fits(j, m, s', labels, terms)
    ensures Flows([i, j], s, s', labels, terms)
  {
    hide Fits, Flows;
    FlowsOne(i, s, m, labels, terms);
    FlowsOne(j, m, s', labels, terms);
    FlowsBoth([i], [j], s, m, s', labels, terms);
    assert [i] + [j] == [i, j];
  }

  // ----- Expressions -----

  /** The state in which an expression's value can be read through its operand. */
  ghost function Evaluated(e: H.Expr, s: State): State {
    if e.Literal? || e.Variable? then s else With(s, Value(ExprKind(e)))
  }

  function Holding(s: State, k: Kind): State {
    With(s, Value(k))
  }

  function PushedOn(s: State, k: Kind): State {
    State(Pushed, s.below + [k])
  }

  ghost predicate CodeFlows(code: seq<Instr>, n: nat, next: nat, s: State, s': State, labels: Labelling,
                            terms: Terms)
  {
    Flows(code, s, s', labels, terms) && Numbered(labels, n, next) && n <= next
  }

  lemma NoLabels(n: nat, next: nat)
    ensures Numbered(map[], n, next)
  {
  }

  lemma OperandOf(e: H.Expr, n: nat)
    ensures e.Literal? || e.Variable? ==>
      && LowerExpr(e, n).code == [] && Quiet(LowerExpr(e, n).operand)
      && OperandKind(LowerExpr(e, n).operand) == ExprKind(e) && LowerExpr(e, n).next == n
    ensures !(e.Literal? || e.Variable?) ==> FromFirst(LowerExpr(e, n).operand)
  {
  }

  /** The load of an expression's value. */
  lemma LoadFits(e: H.Expr, n: nat, s: State, labels: Labelling, terms: Terms)
    requires AsFree(s.mode)
    ensures Fits(Load(T1, LowerExpr(e, n).operand), Evaluated(e, s), Holding(s, ExprKind(e)), labels, terms)
  {
    hide LowerExpr, ExprKind;
    OperandOf(e, n);
    LeReflexive(Holding(s, ExprKind(e)));
  }

  lemma PushFits(s: State, k: Kind, labels: Labelling, terms: Terms)
    ensures Fits(Push(T1), Holding(s, k), PushedOn(s, k), labels, terms)
  {
    hide After;
    PushedAfter(s, k);
    LeReflexive(PushedOn(s, k));
  }

  lemma PushedAfter(s: State, k: Kind)
    ensures After(Push(T1), Holding(s, k)) == Some(PushedOn(s, k))
  {
    hide Moved, PopTo, Operate, Compare, ChangeFirst;
  }

  /** Code, then the load of its value. */
  lemma {:induction false} LoadedFlows(e: H.Expr, n: nat, s: State, terms: Terms) returns (labels: Labelling)
    requires Typable(e, terms) && AsFree(s.mode)
    ensures var x := LowerExpr(e, n);
      CodeFlows(x.code + [Load(T1, x.operand)], n, x.next, s, Holding(s, ExprKind(e)), labels, terms)
    decreases e, 2
  {
    hide LowerExpr, ExprKind, Flows, Typable, Evaluated, Fits, Numbered;
    var x := LowerExpr(e, n);
    labels := ExprFlows(e, n, s, terms);
    LoadFits(e, n, s, labels, terms);
    FlowsOne(Load(T1, x.operand), Evaluated(e, s), Holding(s, ExprKind(e)), labels, terms);
    FlowsBoth(x.code, [Load(T1, x.operand)], s, Evaluated(e, s), Holding(s, ExprKind(e)), labels, terms);
  }

  lemma {:induction false} PushedFlows(e: H.Expr, n: nat, s: State, terms: Terms) returns (labels: Labelling)
    requires Typable(e, terms) && AsFree(s.mode)
    ensures var x := LowerPushed(e, n);
      CodeFlows(x.code, n, x.next, s, PushedOn(s, ExprKind(e)), labels, terms)
    decreases e, 3
  {
    hide LowerExpr, ExprKind, Flows, Typable, Fits, Numbered;
    var x := LowerExpr(e, n);
    labels := LoadedFlows(e, n, s, terms);
    PushFits(s, ExprKind(e), labels, terms);
    FlowsOne(Push(T1), Holding(s, ExprKind(e)), PushedOn(s, ExprKind(e)), labels, terms);
    FlowsBoth(x.code + [Load(T1, x.operand)], [Push(T1)], s, Holding(s, ExprKind(e)), PushedOn(s, ExprKind(e)),
              labels, terms);
    assert x.code + [Load(T1, x.operand)] + [Push(T1)] == x.code + [Load(T1, x.operand), Push(T1)];
  }

  /** An operation on the two topmost values. */
  lemma OperationFlows(op: H.MathToken, s: State, a: Kind, b: Kind, labels: Labelling, terms: Terms)
    requires terms.checked ==> OperationOk(MathOpcode(op), a, b)
    ensures Flows(DoMathOperation(op), State(Pushed, s.below + [a] + [b]),
                  PushedOn(s, OperationKind(MathOpcode(op), a, b)), labels, terms)
  {
    hide OperationKind, OperationOk, Flows;
    var k := OperationKind(MathOpcode(op), a, b);
    var s0 := State(Pushed, s.below + [a] + [b]);
    var s1 := State(Second(b), s.below + [a]);
    var s2 := With(s, Both(a, b));
    OperationSteps(op, s, a, b, labels, terms);
    PushFits(s, k, labels, terms);
    FlowsTwo(Pop(T2), Pop(T1), s0, s1, s2, labels, terms);
    FlowsTwo(Instr(MathOpcode(op), T1, T2), Push(T1), s2, Holding(s, k), PushedOn(s, k), labels, terms);
    FlowsBoth([Pop(T2), Pop(T1)], [Instr(MathOpcode(op), T1, T2), Push(T1)], s0, s2, PushedOn(s, k), labels, terms);
    assert [Pop(T2), Pop(T1)] + [Instr(MathOpcode(op), T1, T2), Push(T1)] == DoMathOperation(op);
  }

  lemma OperationSteps(op: H.MathToken, s: State, a: Kind, b: Kind, labels: Labelling, terms: Terms)
    requires terms.checked ==> OperationOk(MathOpcode(op), a, b)
    ensures Fits(Pop(T2), State(Pushed, s.below + [a] + [b]), State(Second(b), s.below + [a]), labels, terms)
    ensures Fits(Pop(T1), State(Second(b), s.below + [a]), With(s, Both(a, b)), labels, terms)
    ensures Fits(Instr(MathOpcode(op), T1, T2), With(s, Both(a, b)),
                 Holding(s, OperationKind(MathOpcode(op), a, b)), labels, terms)
  {
    hide OperationKind, OperationOk, After;
    PopsFit(s.below + [a], b, Pushed, T2, Second(b), labels, terms);
    PopsFit(s.below, a, Second(b), T1, Both(a, b), labels, terms);
    LeReflexive(Holding(s, OperationKind(MathOpcode(op), a, b)));
    IsMathToken(op);
    OperateGives(MathOpcode(op), s, a, b);
  }

  lemma OperateGives(op: Opcode, s: State, a: Kind, b: Kind)
    requires IsMath(op)
    ensures After(Instr(op, T1, T2), With(s, Both(a, b))) == Some(Holding(s, OperationKind(op, a, b)))
  {
    hide OperationKind;
  }

  lemma IsMathToken(op: H.MathToken)
    ensures IsMath(MathOpcode(op))
  {
  }

  /** The pops of lowered code. */
  lemma PopsFit(rest: seq<Kind>, top: Kind, m: Mode, o: Operand, m': Mode, labels: Labelling, terms: Terms)
    requires || (o == T2 && m.Pushed? && m' == Second(top))
             || (o == T2 && m.Flag? && m' == FlagBoth)
             || (o == T1 && m.Second? && m' == Both(top, m.kind))
             || (o == T1 && m.Pushed? && m' == Value(top))
             || (o == T1 && m.Args? && !m.loaded && m' == Args(m.placed, true))
    ensures Fits(Pop(o), State(m, rest + [top]), State(m', rest), labels, terms)
  {
    hide After;
    PopsAfter(rest, top, m, o, m');
    LeReflexive(State(m', rest));
  }

  lemma PopsAfter(rest: seq<Kind>, top: Kind, m: Mode, o: Operand, m': Mode)
    requires || (o == T2 && m.Pushed? && m' == Second(top))
             || (o == T2 && m.Flag? && m' == FlagBoth)
             || (o == T1 && m.Second? && m' == Both(top, m.kind))
             || (o == T1 && m.Pushed? && m' == Value(top))
             || (o == T1 && m.Args? && !m.loaded && m' == Args(m.placed, true))
    ensures After(Pop(o), State(m, rest + [top])) == Some(State(m', rest))
  {
    hide Moved, PushOf, Operate, Compare, ChangeFirst;
    var s := State(m, rest + [top]);
    assert s.below[..|s.below| - 1] == rest;
  }

  ghost predicate ListTypable(parent: H.Expr, first: H.Expr, rest: seq<H.Term>, terms: Terms)
    requires first < parent && H.TermsBelow(rest, parent)
  {
    && Typable(first, terms) && (forall i :: 0 <= i < |rest| ==> Typable(rest[i].operand, terms))
    && (terms.checked ==> SumsOnly(parent, first, rest))
  }

  /** An operator list leaves its tree's value on the stack. */
  lemma {:induction false} ListFlows(parent: H.Expr, first: H.Expr, rest: seq<H.Term>, n: nat, s: State, terms: Terms)
    returns (labels: Labelling)
    requires first < parent && H.TermsBelow(rest, parent) && ListTypable(parent, first, rest, terms) && AsFree(s.mode)
    ensures var x := E.LowerList(first, rest, n);
      CodeFlows(x.code, n, x.next, s, PushedOn(s, ListKind(parent, first, rest)), labels, terms)
    decreases parent, 0, |rest|
  {
    hide ExprKind, Flows, Typable, LowerPushed, DoMathOperation, SumsOnly, OperationKind, OperationOk, H.SplitPoint,
      ListKind, LowerTerms, Numbered, E.LowerList;
    if rest == [] {
      ListAlone(parent, first, n);
      labels := PushedFlows(first, n, s, terms);
    } else {
      var k := H.SplitPoint(rest);
      var t := rest[k];
      ListParts(parent, first, rest, terms);
      E.ListCodeSplits(first, rest, n);
      var left := E.LowerList(first, rest[..k], n);
      var right := E.LowerList(t.operand, rest[k + 1..], left.next);
      var a, b := ListKind(parent, first, rest[..k]), ListKind(parent, t.operand, rest[k + 1..]);
      var la := ListFlows(parent, first, rest[..k], n, s, terms);
      var lb := ListFlows(parent, t.operand, rest[k + 1..], left.next, PushedOn(s, a), terms);
      FlowsApart(left.code, right.code, s, PushedOn(s, a), PushedOn(PushedOn(s, a), b), la, lb, n, left.next,
                 right.next, terms);
      labels := la + lb;
      OperationFlows(t.op, s, a, b, labels, terms);
      FlowsBoth(left.code + right.code, DoMathOperation(t.op), s, PushedOn(PushedOn(s, a), b),
                PushedOn(s, OperationKind(MathOpcode(t.op), a, b)), labels, terms);
    }
  }

  lemma ListAlone(parent: H.Expr, first: H.Expr, n: nat)
    requires first < parent
    ensures E.LowerList(first, [], n) == LowerPushed(first, n) && ListKind(parent, first, []) == ExprKind(first)
  {
    hide LowerPushed, ExprKind;
    assert LowerTerms([], [], LowerPushed(first, n).next) == Piece([], LowerPushed(first, n).next);
  }

  lemma ListParts(parent: H.Expr, first: H.Expr, rest: seq<H.Term>, terms: Terms)
    requires rest != [] && first < parent && H.TermsBelow(rest, parent) && ListTypable(parent, first, rest, terms)
    ensures var k := H.SplitPoint(rest);
      && rest[k].operand < parent && H.TermsBelow(rest[..k], parent) && H.TermsBelow(rest[k + 1..], parent)
      && ListTypable(parent, first, rest[..k], terms)
      && ListTypable(parent, rest[k].operand, rest[k + 1..], terms)
      && (terms.checked ==> OperationOk(MathOpcode(rest[k].op), ListKind(parent, first, rest[..k]),
                                  ListKind(parent, rest[k].operand, rest[k + 1..])))
      && ListKind(parent, first, rest) == OperationKind(MathOpcode(rest[k].op), ListKind(parent, first, rest[..k]),
                                                        ListKind(parent, rest[k].operand, rest[k + 1..]))
  {
    hide Typable, OperationKind, OperationOk, H.SplitPoint, ExprKind, MathOpcode, ListKind, SumsOnly;
    TermsPart(parent, rest, H.SplitPoint(rest));
    SumsPart(parent, first, rest, H.SplitPoint(rest));
  }

  lemma TermsPart(parent: H.Expr, rest: seq<H.Term>, k: nat)
    requires k < |rest| && H.TermsBelow(rest, parent)
    ensures rest[k].operand < parent && H.TermsBelow(rest[..k], parent) && H.TermsBelow(rest[k + 1..], parent)
  {
  }

  lemma SumsPart(parent: H.Expr, first: H.Expr, rest: seq<H.Term>, k: nat)
    requires rest != [] && k == H.SplitPoint(rest) && first < parent && H.TermsBelow(rest, parent)
    requires rest[k].operand < parent && H.TermsBelow(rest[..k], parent) && H.TermsBelow(rest[k + 1..], parent)
    ensures var a, b := ListKind(parent, first, rest[..k]), ListKind(parent, rest[k].operand, rest[k + 1..]);
      && (SumsOnly(parent, first, rest) ==> OperationOk(MathOpcode(rest[k].op), a, b))
      && ListKind(parent, first, rest) == OperationKind(MathOpcode(rest[k].op), a, b)
    ensures SumsOnly(parent, first, rest) ==>
      SumsOnly(parent, first, rest[..k]) && SumsOnly(parent, rest[k].operand, rest[k + 1..])
  {
    hide OperationKind, OperationOk, H.SplitPoint, ExprKind, MathOpcode, H.TermsBelow;
  }

  lemma {:induction false} ExprFlows(e: H.Expr, n: nat, s: State, terms: Terms) returns (labels: Labelling)
    requires Typable(e, terms) && AsFree(s.mode)
    ensures var x := LowerExpr(e, n); CodeFlows(x.code, n, x.next, s, Evaluated(e, s), labels, terms)
    decreases e, 1
  {
    hide Flows, Typable, Numbered;
    match e
    case Literal(_) => labels := NothingFlows(e, n, s, terms);
    case Variable(_) => labels := NothingFlows(e, n, s, terms);
    case Math(_, _) => labels := MathFlows(e, n, s, terms);
    case Condition(_, _) => labels := ConditionFlows(e, n, s, terms);
    case Unary(_, _) => labels := UnaryFlows(e, n, s, terms);
    case Cast(_) => labels := CastFlows(e, n, s, terms);
    case Call(_, _) => labels := CallFlows(e, n, s, true, terms);
  }

  lemma NothingFlows(e: H.Expr, n: nat, s: State, terms: Terms) returns (labels: Labelling)
    requires e.Literal? || e.Variable?
    ensures var x := LowerExpr(e, n); CodeFlows(x.code, n, x.next, s, Evaluated(e, s), labels, terms)
  {
    hide Flows;
    labels := map[];
    NoLabels(n, n);
    FlowsNone(s, labels, terms);
  }

  /** A whole operator list with its final pop. */
  lemma {:induction false} MathFlows(e: H.Expr, n: nat, s: State, terms: Terms) returns (labels: Labelling)
    requires e.Math? && Typable(e, terms) && AsFree(s.mode)
    ensures var x := LowerExpr(e, n); CodeFlows(x.code, n, x.next, s, Evaluated(e, s), labels, terms)
    decreases e, 0
  {
    hide Flows, Typable, LowerTerms, LowerPushed, Numbered, ListKind, E.LowerList, ListTypable;
    MathTypable(e, terms);
    MathShape(e, n);
    var list := E.LowerList(e.first, e.rest, n);
    var k := ListKind(e, e.first, e.rest);
    labels := ListFlows(e, e.first, e.rest, n, s, terms);
    PopsFit(s.below, k, Pushed, T1, Value(k), labels, terms);
    FlowsOne(Pop(T1), PushedOn(s, k), Holding(s, k), labels, terms);
    FlowsBoth(list.code, [Pop(T1)], s, PushedOn(s, k), Holding(s, k), labels, terms);
  }

  lemma MathTypable(e: H.Expr, terms: Terms)
    requires e.Math? && Typable(e, terms)
    ensures e.first < e && H.TermsBelow(e.rest, e) && ListTypable(e, e.first, e.rest, terms)
  {
    hide SumsOnly;
  }

  lemma MathShape(e: H.Expr, n: nat)
    requires e.Math?
    ensures LowerExpr(e, n) == Lowered(E.LowerList(e.first, e.rest, n).code + [Pop(T1)], T1,
                                       E.LowerList(e.first, e.rest, n).next)
    ensures forall s: State :: e.first < e && H.TermsBelow(e.rest, e) ==>
      Evaluated(e, s) == Holding(s, ListKind(e, e.first, e.rest))
  {
    hide LowerTerms, LowerPushed, ListKind;
  }

  // ----- Conditions -----

  lemma ComparisonSteps(op: H.CompareToken, s: State, a: Kind, b: Kind, labels: Labelling, terms: Terms)
    ensures Flows(ComparisonTail(op), State(Pushed, s.below + [a] + [b]), With(s, Flag), labels, terms)
  {
    hide Flows;
    var s0 := State(Pushed, s.below + [a] + [b]);
    var s1 := State(Second(b), s.below + [a]);
    var s2 := With(s, Both(a, b));
    var s3 := With(s, Compared);
    PopsFit(s.below + [a], b, Pushed, T2, Second(b), labels, terms);
    PopsFit(s.below, a, Second(b), T1, Both(a, b), labels, terms);
    CompareFits(op, s, a, b, labels, terms);
    FlowsTwo(Pop(T2), Pop(T1), s0, s1, s2, labels, terms);
    FlowsTwo(Instr(COMPARE, T1, T2), Instr(CompareOpcode(op), T1, T1), s2, s3, With(s, Flag), labels, terms);
    FlowsBoth([Pop(T2), Pop(T1)], [Instr(COMPARE, T1, T2), Instr(CompareOpcode(op), T1, T1)], s0, s2, With(s, Flag),
              labels, terms);
    assert [Pop(T2), Pop(T1)] + [Instr(COMPARE, T1, T2), Instr(CompareOpcode(op), T1, T1)] == ComparisonTail(op);
  }

  lemma CompareFits(op: H.CompareToken, s: State, a: Kind, b: Kind, labels: Labelling, terms: Terms)
    ensures Fits(Instr(COMPARE, T1, T2), With(s, Both(a, b)), With(s, Compared), labels, terms)
    ensures Fits(Instr(CompareOpcode(op), T1, T1), With(s, Compared), With(s, Flag), labels, terms)
  {
    hide After, CompareOpcode;
    ComparedAfter(s, a, b);
    FlagAfter(op, s);
    LeReflexive(With(s, Compared));
    LeReflexive(With(s, Flag));
  }

  lemma ComparedAfter(s: State, a: Kind, b: Kind)
    ensures After(Instr(COMPARE, T1, T2), With(s, Both(a, b))) == Some(With(s, Compared))
  {
    hide Moved, PushOf, PopTo, Operate, ChangeFirst;
  }

  lemma FlagAfter(op: H.CompareToken, s: State)
    ensures IsSet(CompareOpcode(op))
    ensures After(Instr(CompareOpcode(op), T1, T1), With(s, Compared)) == Some(With(s, Flag))
  {
    hide Moved, PushOf, PopTo, Operate, ChangeFirst, Compare;
  }

  ghost predicate ComparisonTypable(c: H.Comparison, terms: Terms) {
    Typable(c.lhs, terms) && Typable(c.rhs, terms)
  }

  lemma {:induction false} ComparisonFlows(c: H.Comparison, n: nat, s: State, terms: Terms)
    returns (labels: Labelling)
    requires ComparisonTypable(c, terms) && AsFree(s.mode)
    ensures var x := LowerComparison(c, n); CodeFlows(x.code, n, x.next, s, With(s, Flag), labels, terms)
    decreases c, 0
  {
    hide ExprKind, Flows, Typable, LowerPushed, Numbered, ComparisonTail;
    var l := LowerPushed(c.lhs, n);
    var r := LowerPushed(c.rhs, l.next);
    var a, b := ExprKind(c.lhs), ExprKind(c.rhs);
    var la := PushedFlows(c.lhs, n, s, terms);
    var lb := PushedFlows(c.rhs, l.next, PushedOn(s, a), terms);
    FlowsApart(l.code, r.code, s, PushedOn(s, a), PushedOn(PushedOn(s, a), b), la, lb, n, l.next, r.next, terms);
    labels := la + lb;
    ComparisonSteps(c.op, s, a, b, labels, terms);
    FlowsBoth(l.code + r.code, ComparisonTail(c.op), s, PushedOn(PushedOn(s, a), b), With(s, Flag), labels, terms);
  }

  /** The two labels a chain is left by, over the same stack. */
  function ExitLabels(s: State, trueLabel: nat, falseLabel: nat): Labelling {
    map[trueLabel := Holding(s, Fresh), falseLabel := With(s, Free)]
  }

  /** Joining a comparison to the value so far. */
  lemma JoinFlows(useAnd: bool, links: seq<H.Link>, trueLabel: nat, falseLabel: nat, s: State, k: Kind,
                  labels: Labelling, terms: Terms)
    requires trueLabel != falseLabel && Extends(ExitLabels(s, trueLabel, falseLabel), labels)
    ensures Flows(Join(useAnd, links, trueLabel, falseLabel), State(Flag, s.below + [k]), PushedOn(s, Fresh), labels,
                  terms)
  {
    hide Flows, Extends;
    var code := Join(useAnd, links, trueLabel, falseLabel);
    var s0 := State(Flag, s.below + [k]);
    var s1, s2, s3 := With(s, FlagBoth), With(s, Joined), Holding(s, Fresh);
    PopsFit(s.below, k, Flag, T2, FlagBoth, labels, terms);
    JoinedFits(code[1], code[2], s, trueLabel, falseLabel, labels, terms);
    PushFits(s, Fresh, labels, terms);
    FlowsTwo(code[0], code[1], s0, s1, s2, labels, terms);
    FlowsTwo(code[2], code[3], s2, s3, PushedOn(s, Fresh), labels, terms);
    FlowsBoth([code[0], code[1]], [code[2], code[3]], s0, s2, PushedOn(s, Fresh), labels, terms);
    assert [code[0], code[1]] + [code[2], code[3]] == code;
  }

  lemma JoinedFits(i: Instr, j: Instr, s: State, trueLabel: nat, falseLabel: nat, labels: Labelling, terms: Terms)
    requires trueLabel != falseLabel && Extends(ExitLabels(s, trueLabel, falseLabel), labels)
    requires (i.op.AND? || i.op.OR?) && i.dst == T1 && i.src == T2
    requires j == JumpTrue(trueLabel) || j == JumpFalse(falseLabel)
    ensures Fits(i, With(s, FlagBoth), With(s, Joined), labels, terms)
    ensures Fits(j, With(s, Joined), Holding(s, Fresh), labels, terms)
  {
    hide After, BranchFits, ArithmeticFits, Extends, ExitLabels;
    OperateJoins(i, s);
    ExitFits(j, s, trueLabel, falseLabel, labels);
    LeReflexive(With(s, Joined));
  }

  lemma ExitFits(j: Instr, s: State, trueLabel: nat, falseLabel: nat, labels: Labelling)
    requires trueLabel != falseLabel && Extends(ExitLabels(s, trueLabel, falseLabel), labels)
    requires j == JumpTrue(trueLabel) || j == JumpFalse(falseLabel)
    ensures BranchFits(j, With(s, Joined), Holding(s, Fresh), labels)
  {
    var exits := ExitLabels(s, trueLabel, falseLabel);
    assert trueLabel in exits && falseLabel in exits;
    LeReflexive(Holding(s, Fresh));
  }

  lemma OperateJoins(i: Instr, s: State)
    requires (i.op.AND? || i.op.OR?) && i.dst == T1 && i.src == T2
    ensures After(i, With(s, FlagBoth)) == Some(With(s, Joined))
    ensures ArithmeticFits(i, With(s, FlagBoth))
  {
    hide Moved, PopTo, PushOf, Compare, ChangeFirst, OperationKind, OperationOk;
  }

  ghost predicate LinksTypable(links: seq<H.Link>, terms: Terms) {
    forall i :: 0 <= i < |links| ==> ComparisonTypable(links[i].comparison, terms)
  }

  lemma {:induction false} LinksFlow(links: seq<H.Link>, n: nat, trueLabel: nat, falseLabel: nat, s: State,
                                     terms: Terms)
    returns (labels: Labelling)
    requires LinksTypable(links, terms) && trueLabel < falseLabel < n
    ensures var x := LowerLinks(links, n, trueLabel, falseLabel);
      && Flows(x.code, PushedOn(s, Fresh), PushedOn(s, Fresh), ExitLabels(s, trueLabel, falseLabel) + labels, terms)
      && Numbered(labels, n, x.next) && n <= x.next
    decreases links
  {
    hide Flows, ComparisonTypable, LowerComparison, Join, Numbered, ExitLabels;
    if links == [] {
      labels := map[];
      NoLabels(n, n);
      FlowsNone(PushedOn(s, Fresh), ExitLabels(s, trueLabel, falseLabel) + labels, terms);
    } else {
      var link: H.Link := links[0];
      var comparison := link.comparison;
      assert comparison < link;
      var c := LowerComparison(comparison, n);
      var p := PushedOn(s, Fresh);
      var exits := ExitLabels(s, trueLabel, falseLabel);
      var la := ComparisonFlows(comparison, n, p, terms);
      var lb := LinksFlow(links[1..], c.next, trueLabel, falseLabel, s, terms);
      labels := la + lb;
      LinkLabels(exits, la, lb, s, trueLabel, falseLabel, n, c.next, LowerLinks(links[1..], c.next, trueLabel,
          falseLabel).next);
      FlowsMore(c.code, p, With(p, Flag), la, exits + labels, terms);
      var join := Join(link.chain.BoolAnd?, links[1..], trueLabel, falseLabel);
      JoinFlows(link.chain.BoolAnd?, links[1..], trueLabel, falseLabel, s, Fresh, exits + labels, terms);
      FlowsBoth(c.code, join, p, With(p, Flag), p, exits + labels, terms);
      var more := LowerLinks(links[1..], c.next, trueLabel, falseLabel);
      FlowsMore(more.code, p, p, exits + lb, exits + labels, terms);
      FlowsBoth(c.code + join, more.code, p, p, p, exits + labels, terms);
    }
  }

  lemma LinkLabels(exits: Labelling, la: Labelling, lb: Labelling, s: State, trueLabel: nat, falseLabel: nat,
                   n: nat, mid: nat, next: nat)
    requires exits == ExitLabels(s, trueLabel, falseLabel) && trueLabel < falseLabel < n <= mid <= next
    requires Numbered(la, n, mid) && Numbered(lb, mid, next)
    ensures Extends(la, exits + (la + lb)) && Extends(exits + lb, exits + (la + lb))
    ensures Extends(exits, exits + (la + lb))
    ensures Numbered(la + lb, n, next)
  {
  }

  /** From the last pushed value of a chain to its end. */
  lemma TailFlows(s: State, trueLabel: nat, falseLabel: nat, doneLabel: nat, labels: Labelling, terms: Terms)
    requires trueLabel < falseLabel < doneLabel
    requires Extends(ExitLabels(s, trueLabel, falseLabel)[doneLabel := Holding(s, Fresh)], labels)
    ensures Flows(ConditionTail(trueLabel, falseLabel, doneLabel), PushedOn(s, Fresh), Holding(s, Fresh), labels,
                  terms)
  {
    hide Flows, Extends;
    var code := ConditionTail(trueLabel, falseLabel, doneLabel);
    var v, f := Holding(s, Fresh), With(s, Free);
    PopsFit(s.below, Fresh, Pushed, T1, Value(Fresh), labels, terms);
    TailFits(s, trueLabel, falseLabel, doneLabel, labels, terms);
    FlowsTwo(code[0], code[1], PushedOn(s, Fresh), v, v, labels, terms);
    FlowsTwo(code[2], code[3], v, f, f, labels, terms);
    FlowsTwo(code[4], code[5], f, Holding(s, Constant(0)), v, labels, terms);
    FlowsBoth([code[0], code[1]], [code[2], code[3]], PushedOn(s, Fresh), v, f, labels, terms);
    FlowsBoth([code[0], code[1]] + [code[2], code[3]], [code[4], code[5]], PushedOn(s, Fresh), f, v, labels, terms);
    assert [code[0], code[1]] + [code[2], code[3]] + [code[4], code[5]] == code;
  }

  lemma TailFits(s: State, trueLabel: nat, falseLabel: nat, doneLabel: nat, labels: Labelling, terms: Terms)
    requires trueLabel < falseLabel < doneLabel
    requires Extends(ExitLabels(s, trueLabel, falseLabel)[doneLabel := Holding(s, Fresh)], labels)
    ensures var v, f := Holding(s, Fresh), With(s, Free);
      && Fits(NewLabel(trueLabel), v, v, labels, terms) && Fits(Jump(doneLabel), v, f, labels, terms)
      && Fits(NewLabel(falseLabel), f, f, labels, terms)
      && Fits(Load(T1, Imm(0)), f, Holding(s, Constant(0)), labels, terms)
      && Fits(NewLabel(doneLabel), Holding(s, Constant(0)), v, labels, terms)
  {
    hide After, Reaches, Le;
    var all := ExitLabels(s, trueLabel, falseLabel)[doneLabel := Holding(s, Fresh)];
    assert trueLabel in all && falseLabel in all && doneLabel in all;
    var v, f := Holding(s, Fresh), With(s, Free);
    LeReflexive(v);
    LeReflexive(f);
    LeReflexive(Holding(s, Constant(0)));
    LoadZero(s);
    ReachesHere(s, Fresh);
    ReachesHere(s, Constant(0));
  }

  lemma ReachesHere(s: State, k: Kind)
    ensures Reaches(Holding(s, k), Holding(s, Fresh)) && Reaches(With(s, Free), With(s, Free))
  {
  }

  lemma LoadZero(s: State)
    ensures After(Load(T1, Imm(0)), With(s, Free)) == Some(Holding(s, Constant(0)))
  {
  }

  /** A condition leaves its truth value in the first temporary. */
  lemma {:induction false} ConditionFlows(e: H.Expr, n: nat, s: State, terms: Terms) returns (labels: Labelling)
    requires e.Condition? && Typable(e, terms) && AsFree(s.mode)
    ensures var x := LowerExpr(e, n); CodeFlows(x.code, n, x.next, s, Evaluated(e, s), labels, terms)
    decreases e, 0
  {
    hide Flows, Typable, LowerComparison, LowerLinks, Numbered, Join, ConditionTail, ComparisonTypable;
    ConditionTypable(e, terms);
    var head := e.head;
    assert Evaluated(e, s) == Holding(s, Fresh);
    if e.links == [] {
      var c := LowerComparison(head, n + 1);
      labels := ComparisonFlows(head, n + 1, s, terms);
      ComparisonNotEmpty(head, n + 1);
      FlagLe(s);
      FlowsOut(c.code, s, With(s, Flag), Holding(s, Fresh), labels, terms);
      NumberedWider(labels, n + 1, c.next, n, c.next);
    } else {
      labels := ChainFlows(e, n, s, terms);
    }
  }

  lemma ConditionTypable(e: H.Expr, terms: Terms)
    requires e.Condition? && Typable(e, terms)
    ensures ComparisonTypable(e.head, terms) && LinksTypable(e.links, terms)
  {
    assert TameExpr(e) && (terms.checked ==> ArithmeticOk(e));
    assert TameComparison(e.head) && (terms.checked ==> ComparisonArithmetic(e.head));
    forall i | 0 <= i < |e.links|
      ensures ComparisonTypable(e.links[i].comparison, terms)
    {
      assert TameComparison(e.links[i].comparison) && (terms.checked ==> ComparisonArithmetic(e.links[i].comparison));
    }
  }

  lemma ComparisonNotEmpty(c: H.Comparison, n: nat)
    ensures LowerComparison(c, n).code != []
  {
    hide LowerPushed;
  }

  lemma FlagLe(s: State)
    ensures Le(With(s, Flag), Holding(s, Fresh))
  {
  }

  lemma NumberedWider(labels: Labelling, n: nat, next: nat, n': nat, next': nat)
    requires Numbered(labels, n, next) && n' <= n && next <= next'
    ensures Numbered(labels, n', next')
  {
  }

  lemma {:induction false} ChainFlows(e: H.Expr, n: nat, s: State, terms: Terms) returns (labels: Labelling)
    requires e.Condition? && e.links != [] && AsFree(s.mode)
    requires ComparisonTypable(e.head, terms) && LinksTypable(e.links, terms)
    ensures var x := LowerExpr(e, n); CodeFlows(x.code, n, x.next, s, Holding(s, Fresh), labels, terms)
    decreases e, 0, 0
  {
    hide Flows, LowerComparison, LowerLinks, Numbered, Join, ConditionTail, ComparisonTypable, LinksTypable, ExitLabels;
    var head, links := e.head, e.links;
    var c := LowerComparison(head, n + 2);
    var r := LowerLinks(links, c.next, n, n + 1);
    var zero, p, v := PushedOn(s, Constant(0)), PushedOn(s, Fresh), Holding(s, Fresh);
    var la := ComparisonFlows(head, n + 2, zero, terms);
    var lb := LinksFlow(links, c.next, n, n + 1, s, terms);
    var exits := ExitLabels(s, n, n + 1);
    labels := ChainLabels(s, la, lb, n, c.next, r.next);
    ZeroFlows(s, labels, terms);
    FlowsMore(c.code, zero, With(zero, Flag), la, labels, terms);
    JoinFlows(false, links, n, n + 1, s, Constant(0), labels, terms);
    FlowsMore(r.code, p, p, exits + lb, labels, terms);
    TailFlows(s, n, n + 1, r.next, labels, terms);
    var first := [Load(T1, Imm(0)), Push(T1)];
    FlowsBoth(first, c.code, s, zero, With(zero, Flag), labels, terms);
    FlowsBoth(first + c.code, Join(false, links, n, n + 1), s, With(zero, Flag), p, labels, terms);
    FlowsBoth(first + c.code + Join(false, links, n, n + 1), r.code, s, p, p, labels, terms);
    FlowsBoth(first + c.code + Join(false, links, n, n + 1) + r.code, ConditionTail(n, n + 1, r.next), s, p, v,
              labels, terms);
  }

  lemma ChainLabels(s: State, la: Labelling, lb: Labelling, n: nat, mid: nat, next: nat) returns (labels: Labelling)
    requires Numbered(la, n + 2, mid) && Numbered(lb, mid, next) && n + 2 <= mid <= next
    ensures Extends(la, labels) && Extends(ExitLabels(s, n, n + 1) + lb, labels)
    ensures Extends(ExitLabels(s, n, n + 1), labels)
    ensures Extends(ExitLabels(s, n, n + 1)[next := Holding(s, Fresh)], labels)
    ensures Numbered(labels, n, next + 1)
  {
    labels := (ExitLabels(s, n, n + 1) + la + lb)[next := Holding(s, Fresh)];
  }

  /** The zero a chain starts from. */
  lemma ZeroFlows(s: State, labels: Labelling, terms: Terms)
    requires AsFree(s.mode)
    ensures Flows([Load(T1, Imm(0)), Push(T1)], s, PushedOn(s, Constant(0)), labels, terms)
  {
    hide Flows, Fits;
    LoadQuiet(Imm(0), s, labels, terms);
    PushFits(s, Constant(0), labels, terms);
    FlowsTwo(Load(T1, Imm(0)), Push(T1), s, Holding(s, Constant(0)), PushedOn(s, Constant(0)), labels, terms);
  }

  lemma LoadQuiet(o: Operand, s: State, labels: Labelling, terms: Terms)
    requires AsFree(s.mode) && Quiet(o)
    ensures Fits(Load(T1, o), s, Holding(s, OperandKind(o)), labels, terms)
  {
    hide OperandKind;
    LeReflexive(Holding(s, OperandKind(o)));
  }

  // ----- Unary operators, casts and calls -----

  lemma {:induction false} UnaryFlows(e: H.Expr, n: nat, s: State, terms: Terms) returns (labels: Labelling)
    requires e.Unary? && Typable(e, terms) && AsFree(s.mode)
    ensures var x := LowerExpr(e, n); CodeFlows(x.code, n, x.next, s, Evaluated(e, s), labels, terms)
    decreases e, 0
  {
    hide Flows, Typable, Numbered, ExprKind, Fits;
    UnaryTypable(e, terms);
    var operand := e.operand;
    UnaryShape(e, n);
    var x := LowerExpr(operand, n);
    var i := Instr(UnaryOpcode(e.unary), T1, Nothing);
    labels := LoadedFlows(operand, n, s, terms);
    UnaryFits(e.unary, s, ExprKind(operand), labels, terms);
    UnaryKind(e, s);
    FlowsOne(i, Holding(s, ExprKind(operand)), Holding(s, Fresh), labels, terms);
    FlowsBoth(x.code + [Load(T1, x.operand)], [i], s, Holding(s, ExprKind(operand)), Holding(s, Fresh), labels,
              terms);
  }

  lemma UnaryTypable(e: H.Expr, terms: Terms)
    requires (e.Unary? || e.Cast?) && Typable(e, terms)
    ensures e.Unary? ==> Typable(e.operand, terms)
    ensures e.Cast? ==> Typable(e.value, terms)
  {
  }

  lemma UnaryShape(e: H.Expr, n: nat)
    requires e.Unary?
    ensures var x := LowerExpr(e.operand, n);
      LowerExpr(e, n)
        == Lowered(x.code + [Load(T1, x.operand)] + [Instr(UnaryOpcode(e.unary), T1, Nothing)], T1, x.next)
  {
    var x := LowerExpr(e.operand, n);
    Snoc(x.code, Load(T1, x.operand), Instr(UnaryOpcode(e.unary), T1, Nothing));
  }

  lemma Snoc(a: seq<Instr>, i: Instr, j: Instr)
    ensures a + [i, j] == a + [i] + [j]
  {
  }

  lemma UnaryKind(e: H.Expr, s: State)
    requires e.Unary?
    ensures Evaluated(e, s) == Holding(s, Fresh)
  {
  }

  lemma UnaryFits(op: H.UnaryToken, s: State, k: Kind, labels: Labelling, terms: Terms)
    ensures Fits(Instr(UnaryOpcode(op), T1, Nothing), Holding(s, k), Holding(s, Fresh), labels, terms)
  {
    hide Moved, PopTo, Operate, Compare, PushOf;
    LeReflexive(Holding(s, Fresh));
  }

  lemma {:induction false} CastFlows(e: H.Expr, n: nat, s: State, terms: Terms) returns (labels: Labelling)
    requires e.Cast? && Typable(e, terms) && AsFree(s.mode)
    ensures var x := LowerExpr(e, n); CodeFlows(x.code, n, x.next, s, Evaluated(e, s), labels, terms)
    decreases e, 0
  {
    hide Flows, Typable, Numbered, Fits;
    UnaryTypable(e, terms);
    var value := e.value;
    labels := LoadedFlows(value, n, s, terms);
  }

  /** The kinds of the complex arguments in the order they are pushed. */
  ghost function ComplexKinds(es: seq<H.Expr>): seq<Kind> {
    if es == [] then []
    else
      var last, rest := es[|es| - 1], ComplexKinds(es[..|es| - 1]);
      if H.IsComplex(last) then [ExprKind(last)] + rest else rest
  }

  /** The places of the complex arguments, or of the others. */
  function Places(es: seq<H.Expr>, complex: bool): set<nat> {
    if es == [] then {}
    else
      var front := Places(es[..|es| - 1], complex);
      if H.IsComplex(es[|es| - 1]) == complex then front + {|es| - 1} else front
  }

  lemma {:induction false} InPlaces(es: seq<H.Expr>, complex: bool, j: nat)
    ensures j in Places(es, complex) <==> j < |es| && H.IsComplex(es[j]) == complex
  {
    if es != [] {
      InPlaces(es[..|es| - 1], complex, j);
    }
  }

  /** The stack after values are pushed one by one. */
  function Stacked(s: State, ks: seq<Kind>): State {
    if ks == [] then s else State(Pushed, s.below + ks)
  }

  function Filling(placed: set<nat>, below: seq<Kind>): State {
    State(Args(placed, false), below)
  }

  /** Some arguments of a call are in place, or its only one is. */
  function Placed(total: nat, placed: set<nat>, below: seq<Kind>): State {
    if total == 1 then State(Alone, below) else Filling(placed, below)
  }

  function PlacedLoaded(placed: set<nat>, below: seq<Kind>): State {
    State(Args(placed, true), below)
  }

  ghost predicate ComplexTypable(es: seq<H.Expr>, terms: Terms) {
    forall i :: 0 <= i < |es| && H.IsComplex(es[i]) ==> Typable(es[i], terms)
  }

  lemma {:induction false} ComplexFlows(es: seq<H.Expr>, n: nat, s: State, terms: Terms) returns (labels: Labelling)
    requires ComplexTypable(es, terms) && AsFree(s.mode)
    ensures var x := LowerComplexArguments(es, n);
      CodeFlows(x.code, n, x.next, s, Stacked(s, ComplexKinds(es)), labels, terms)
    decreases es
  {
    hide Flows, Typable, LowerPushed, Numbered, ExprKind, H.IsComplex;
    if es == [] {
      labels := map[];
      NoLabels(n, n);
      FlowsNone(s, labels, terms);
    } else {
      var last, front := es[|es| - 1], es[..|es| - 1];
      if !H.IsComplex(last) {
        labels := ComplexFlows(front, n, s, terms);
      } else {
        var x := LowerPushed(last, n);
        var more := LowerComplexArguments(front, x.next);
        var k := ExprKind(last);
        var la := PushedFlows(last, n, s, terms);
        var lb := ComplexFlows(front, x.next, PushedOn(s, k), terms);
        StackedMore(s, k, ComplexKinds(front));
        FlowsApart(x.code, more.code, s, PushedOn(s, k), Stacked(s, ComplexKinds(es)), la, lb, n, x.next, more.next,
                   terms);
        labels := la + lb;
      }
    }
  }

  lemma StackedMore(s: State, k: Kind, ks: seq<Kind>)
    ensures Stacked(PushedOn(s, k), ks) == Stacked(s, [k] + ks)
  {
    assert s.below + [k] + ks == s.below + ([k] + ks);
  }

  lemma {:induction false} NoneComplex(es: seq<H.Expr>, n: nat, total: nat)
    requires forall i :: 0 <= i < |es| ==> !H.IsComplex(es[i])
    ensures LowerComplexArguments(es, n) == Piece([], n) && StoreComplexArguments(es, total) == []
    ensures Places(es, true) == {}
  {
    hide H.IsComplex;
    if es != [] {
      NoneComplex(es[..|es| - 1], n, total);
      assert StoreComplexArguments(es, total) == StoreComplexArguments(es[..|es| - 1], total) + [];
    }
  }

  /** A value on top of the stack goes to its place. */
  lemma StorePopped(i: nat, total: nat, s: State, b: seq<Kind>, k: Kind, placed: set<nat>, terms: Terms)
    requires i < MAX_REGISTER_ARGUMENTS && i !in placed
    requires (s == State(Pushed, b + [k]) && placed == {}) || (s == Filling(placed, b + [k]) && total != 1)
    requires total == 1 ==> i == 0
    ensures Flows([Pop(T1), StoreArgument(i, total)], s, Placed(total, placed + {i}, b), map[], terms)
  {
    hide Flows;
    var loaded := if s.mode.Pushed? then State(Value(k), b) else PlacedLoaded(placed, b);
    PopsFit(b, k, s.mode, T1, loaded.mode, map[], terms);
    PlacesFit(i, total, loaded, placed, b, map[], terms);
    FlowsTwo(Pop(T1), StoreArgument(i, total), s, loaded, Placed(total, placed + {i}, b), map[], terms);
  }

  lemma PlacesFit(i: nat, total: nat, s: State, placed: set<nat>, b: seq<Kind>, labels: Labelling, terms: Terms)
    requires i < MAX_REGISTER_ARGUMENTS && i !in placed && s.below == b
    requires (s.mode.Value? && placed == {}) || (s.mode == Args(placed, true) && total != 1)
    requires total == 1 ==> i == 0
    ensures Fits(StoreArgument(i, total), s, Placed(total, placed + {i}, b), labels, terms)
  {
    hide LoadFirst, LoadSecond, StoreLocal, PopTo, Operate, Compare, PushOf;
    LeReflexive(Placed(total, placed + {i}, b));
    assert {} + {i} == {i};
  }

  /** The complex arguments go from the stack to their places. */
  lemma {:induction false} StoreFlows(es: seq<H.Expr>, total: nat, b: seq<Kind>, terms: Terms)
    requires |es| <= MAX_REGISTER_ARGUMENTS && |es| <= total && Places(es, true) != {}
    ensures Flows(StoreComplexArguments(es, total), State(Pushed, b + ComplexKinds(es)),
                  Placed(total, Places(es, true), b), map[], terms)
  {
    hide Flows, ExprKind, H.IsComplex, StoreArgument;
    var last, front := es[|es| - 1], es[..|es| - 1];
    if !H.IsComplex(last) {
      StoreFlows(front, total, b, terms);
      assert StoreComplexArguments(front, total) + [] == StoreComplexArguments(front, total);
    } else {
      var k := ExprKind(last);
      InPlaces(front, true, |front|);
      if Places(front, true) == {} {
        NoKinds(front);
        NotComplex(front);
        NoneComplex(front, 0, total);
        assert ComplexKinds(es) == [k] && StoreComplexArguments(es, total) == [Pop(T1), StoreArgument(|front|, total)];
        StorePopped(|front|, total, State(Pushed, b + [k]), b, k, {}, terms);
      } else {
        StoreFlows(front, total, b + [k], terms);
        assert b + [k] + ComplexKinds(front) == b + ComplexKinds(es);
        StorePopped(|front|, total, Filling(Places(front, true), b + [k]), b, k, Places(front, true), terms);
        FlowsBoth(StoreComplexArguments(front, total), [Pop(T1), StoreArgument(|front|, total)],
                  State(Pushed, b + ComplexKinds(es)), Filling(Places(front, true), b + [k]),
                  Placed(total, Places(es, true), b), map[], terms);
      }
    }
  }

  lemma {:induction false} NoKinds(es: seq<H.Expr>)
    ensures ComplexKinds(es) == [] <==> Places(es, true) == {}
  {
    hide H.IsComplex, ExprKind;
    if es != [] {
      NoKinds(es[..|es| - 1]);
    }
  }

  lemma NotComplex(es: seq<H.Expr>)
    requires Places(es, true) == {}
    ensures forall i :: 0 <= i < |es| ==> !H.IsComplex(es[i])
  {
    hide H.IsComplex, Places;
    forall i | 0 <= i < |es|
      ensures !H.IsComplex(es[i])
    {
      InPlaces(es, true, i);
    }
  }

  /** The code of a plain argument touches the first temporary only. */
  lemma {:induction false} PlainCode(e: H.Expr, n: nat, placed: set<nat>, b: seq<Kind>, terms: Terms)
    requires PlainArgument(e)
    ensures var x := LowerExpr(e, n);
      && Flows(x.code + [Load(T1, x.operand)], Filling(placed, b), PlacedLoaded(placed, b), map[], terms)
      && x.next == n
  {
    hide Flows, Fits;
    var x := LowerExpr(e, n);
    var s, l := Filling(placed, b), PlacedLoaded(placed, b);
    match e
    case Literal(_) => LoadPlaced(x.operand, placed, b, terms);
    case Variable(_) => LoadPlaced(x.operand, placed, b, terms);
    case Unary(unary, operand) =>
      var y := LowerExpr(operand, n);
      var i := Instr(UnaryOpcode(unary), T1, Nothing);
      PlainCode(operand, n, placed, b, terms);
      ChangePlaced(unary, placed, b, terms);
      FlowsTwo(i, Load(T1, T1), l, l, l, map[], terms);
      FlowsBoth(y.code + [Load(T1, y.operand)], [i, Load(T1, T1)], s, l, l, map[], terms);
      SnocMore(y.code, Load(T1, y.operand), i, Load(T1, T1));
    case Cast(value) =>
      var y := LowerExpr(value, n);
      PlainCode(value, n, placed, b, terms);
      ChangePlaced(H.Negate, placed, b, terms);
      FlowsOne(Load(T1, T1), l, l, map[], terms);
      FlowsBoth(y.code + [Load(T1, y.operand)], [Load(T1, T1)], s, l, l, map[], terms);
  }

  lemma SnocMore(a: seq<Instr>, i: Instr, j: Instr, k: Instr)
    ensures a + [i] + [j, k] == a + [i, j] + [k]
  {
  }

  lemma LoadPlaced(o: Operand, placed: set<nat>, b: seq<Kind>, terms: Terms)
    requires Quiet(o)
    ensures Flows([] + [Load(T1, o)], Filling(placed, b), PlacedLoaded(placed, b), map[], terms)
  {
    hide Flows;
    LeReflexive(PlacedLoaded(placed, b));
    assert [] + [Load(T1, o)] == [Load(T1, o)];
    FlowsOne(Load(T1, o), Filling(placed, b), PlacedLoaded(placed, b), map[], terms);
  }

  lemma ChangePlaced(op: H.UnaryToken, placed: set<nat>, b: seq<Kind>, terms: Terms)
    ensures var l := PlacedLoaded(placed, b);
      && Fits(Instr(UnaryOpcode(op), T1, Nothing), l, l, map[], terms)
      && Fits(Load(T1, T1), l, l, map[], terms)
  {
    hide PopTo, Operate, Compare, PushOf;
    LeReflexive(PlacedLoaded(placed, b));
  }

  /** The arguments that are not complex go straight to their places. */
  lemma {:induction false} PlainFlows(es: seq<H.Expr>, total: nat, n: nat, placed: set<nat>, b: seq<Kind>,
                                      terms: Terms)
    requires |es| <= MAX_REGISTER_ARGUMENTS
    requires forall i :: 0 <= i < |es| && !H.IsComplex(es[i]) ==> PlainArgument(es[i]) && i !in placed
    requires total == 1 ==> forall i :: 0 <= i < |es| ==> H.IsComplex(es[i])
    ensures var x := LowerPlainArguments(es, total, n);
      && Flows(x.code, Placed(total, placed, b), Placed(total, placed + Places(es, false), b), map[], terms)
      && x.next == n
    decreases |es|
  {
    hide Flows, Fits, H.IsComplex, PlainArgument, LowerExpr, StoreArgument;
    if es == [] {
      assert placed + Places(es, false) == placed;
      FlowsNone(Placed(total, placed, b), map[], terms);
    } else {
      var last, front := es[|es| - 1], es[..|es| - 1];
      if H.IsComplex(last) {
        PlainFlows(front, total, n, placed, b, terms);
      } else {
        var x := LowerExpr(last, n);
        PlainCode(last, n, placed, b, terms);
        var placed' := placed + {|front|};
        PlacesFit(|front|, total, PlacedLoaded(placed, b), placed, b, map[], terms);
        FlowsOne(StoreArgument(|front|, total), PlacedLoaded(placed, b), Placed(total, placed', b), map[], terms);
        FlowsBoth(x.code + [Load(T1, x.operand)], [StoreArgument(|front|, total)], Placed(total, placed, b),
                  PlacedLoaded(placed, b), Placed(total, placed', b), map[], terms);
        Snoc(x.code, Load(T1, x.operand), StoreArgument(|front|, total));
        PlainFlows(front, total, n, placed', b, terms);
        assert placed' + Places(front, false) == placed + Places(es, false);
        FlowsBoth(x.code + [Load(T1, x.operand), StoreArgument(|front|, total)],
                  LowerPlainArguments(front, total, n).code, Placed(total, placed, b), Placed(total, placed', b),
                  Placed(total, placed + Places(es, false), b), map[], terms);
      }
    }
  }

  // ----- Calls -----

  /** The state after a call whose result is kept, or is not. */
  function Called(s: State, keep: bool): State {
    if keep then Holding(s, Fresh) else With(s, Free)
  }

  lemma {:induction false} CallFlows(e: H.Expr, n: nat, s: State, keep: bool, terms: Terms)
    returns (labels: Labelling)
    requires e.Call? && Typable(e, terms) && AsFree(s.mode)
    ensures var x := LowerExpr(e, n); CodeFlows(x.code, n, x.next, s, Called(s, keep), labels, terms)
    decreases e, 0
  {
    hide Flows, Typable, Numbered, Places, LowerComplexArguments, StoreComplexArguments, LowerPlainArguments,
      TameArgument, Called, CallInstr, ComplexTypable;
    var es := e.arguments;
    var total := |es|;
    CallTypable(e, terms);
    var a := LowerComplexArguments(es, n);
    var stores := StoreComplexArguments(es, total);
    var b := LowerPlainArguments(es, total, a.next);
    var call := CallInstr(e.callee, total);
    if Places(es, true) == {} {
      NotComplex(es);
      NoneComplex(es, n, total);
      labels := StraightFlows(es, n, s, terms);
      var filled := if es == [] then s else Placed(|es|, Places(es, false), s.below);
      CallStep(e.callee, es, s, filled, keep, labels, terms);
      FlowsBoth(b.code, [call], s, filled, Called(s, keep), labels, terms);
      assert a.code + stores + b.code + [call] == b.code + [call];
    } else {
      var ks := ComplexKinds(es);
      var s1, s2 := State(Pushed, s.below + ks), Placed(total, Places(es, true), s.below);
      var s3 := Placed(total, Places(es, true) + Places(es, false), s.below);
      NoKinds(es);
      labels := ComplexFlows(es, n, s, terms);
      StoreFlows(es, total, s.below, terms);
      OthersPlain(es);
      OnlyComplex(es);
      PlainFlows(es, total, a.next, Places(es, true), s.below, terms);
      CallStep(e.callee, es, s, s3, keep, map[], terms);
      FlowsThen(a.code, stores, s, s1, s2, labels, terms);
      FlowsThen(a.code + stores, b.code, s, s2, s3, labels, terms);
      FlowsThen(a.code + stores + b.code, [call], s, s3, Called(s, keep), labels, terms);
    }
  }

  lemma CallTypable(e: H.Expr, terms: Terms)
    requires e.Call? && Typable(e, terms)
    ensures TameArguments(e.arguments) && ComplexTypable(e.arguments, terms)
    ensures forall i :: 0 <= i < |e.arguments| ==> Typable(e.arguments[i], terms)
  {
    hide TameArgument;
  }

  lemma OnlyComplex(es: seq<H.Expr>)
    requires Places(es, true) != {}
    ensures |es| == 1 ==> H.IsComplex(es[0])
  {
    hide H.IsComplex, Places;
    var j :| j in Places(es, true);
    InPlaces(es, true, j);
  }

  lemma OthersPlain(es: seq<H.Expr>)
    requires TameArguments(es) && Places(es, true) != {}
    ensures forall i :: 0 <= i < |es| && !H.IsComplex(es[i]) ==> PlainArgument(es[i]) && i !in Places(es, true)
  {
    hide H.IsComplex, PlainArgument, Places;
    var j :| j in Places(es, true);
    InPlaces(es, true, j);
    forall i | 0 <= i < |es| && !H.IsComplex(es[i])
      ensures PlainArgument(es[i]) && i !in Places(es, true)
    {
      InPlaces(es, true, i);
      assert TameArgument(es, i);
    }
  }

  /** Without complex arguments the last one is evaluated before any register is filled. */
  lemma {:induction false} StraightFlows(es: seq<H.Expr>, n: nat, s: State, terms: Terms) returns (labels: Labelling)
    requires TameArguments(es) && (forall i :: 0 <= i < |es| ==> !H.IsComplex(es[i])) && AsFree(s.mode)
    requires forall i :: 0 <= i < |es| ==> Typable(es[i], terms)
    ensures var x := LowerPlainArguments(es, |es|, n);
      CodeFlows(x.code, n, x.next, s, if es == [] then s else Placed(|es|, Places(es, false), s.below), labels, terms)
    decreases es
  {
    hide Flows, Typable, Numbered, H.IsComplex, PlainArgument, LowerExpr, StoreArgument, ExprKind;
    if es == [] {
      labels := map[];
      NoLabels(n, n);
      FlowsNone(s, labels, terms);
    } else {
      var last, front, total := es[|es| - 1], es[..|es| - 1], |es|;
      var x := LowerExpr(last, n);
      var k := ExprKind(last);
      var placed := {} + {|front|};
      labels := LoadedFlows(last, n, s, terms);
      PlacesFit(|front|, total, Holding(s, k), {}, s.below, labels, terms);
      FlowsOne(StoreArgument(|front|, total), Holding(s, k), Placed(total, placed, s.below), labels, terms);
      FlowsBoth(x.code + [Load(T1, x.operand)], [StoreArgument(|front|, total)], s, Holding(s, k),
                Placed(total, placed, s.below), labels, terms);
      Snoc(x.code, Load(T1, x.operand), StoreArgument(|front|, total));
      FrontPlain(es);
      PlainFlows(front, total, x.next, placed, s.below, terms);
      assert placed + Places(front, false) == Places(es, false);
      FlowsThen(x.code + [Load(T1, x.operand), StoreArgument(|front|, total)],
                LowerPlainArguments(front, total, x.next).code, s, Placed(total, placed, s.below),
                Placed(|es|, Places(es, false), s.below), labels, terms);
    }
  }

  lemma FrontPlain(es: seq<H.Expr>)
    requires es != [] && TameArguments(es) && forall i :: 0 <= i < |es| ==> !H.IsComplex(es[i])
    ensures forall i :: 0 <= i < |es| - 1 ==> PlainArgument(es[i])
  {
    hide H.IsComplex, PlainArgument;
    forall i | 0 <= i < |es| - 1
      ensures PlainArgument(es[i])
    {
      assert TameArgument(es, i);
    }
  }

  /** The call, once every argument is in its place. */
  lemma CallStep(callee: nat, es: seq<H.Expr>, s: State, s': State, keep: bool, labels: Labelling, terms: Terms)
    requires |es| <= MAX_REGISTER_ARGUMENTS && AsFree(s.mode) && s'.below == s.below
    requires es == [] ==> s' == s
    requires |es| == 1 ==> s'.mode.Alone?
    requires |es| > 1 ==> s'.mode.Args? && !s'.mode.loaded && Places(es, true) + Places(es, false) <= s'.mode.placed
    ensures Flows([CallInstr(callee, |es|)], s', Called(s, keep), labels, terms)
  {
    hide Flows, Places, H.IsComplex;
    forall j: nat | j < |es|
      ensures j in Places(es, true) + Places(es, false)
    {
      InPlaces(es, H.IsComplex(es[j]), j);
    }
    LeReflexive(Called(s, keep));
    FlowsOne(CallInstr(callee, |es|), s', Called(s, keep), labels, terms);
  }
}
