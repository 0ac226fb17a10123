/** What the optimizer does to source as it is usually written, by conditions that only look at the
    source: calls with at most six arguments none of which is a unary operator, and operator lists
    without constants or with nothing but additions. */
module OrdinaryOptimized {
  import opened Words
  import opened Environment
  import opened Lir
  import opened Runs
  import opened FunctionSim
  import opened Optimizing
  import opened Compiler
  import opened ModeLowering
  import opened Ordinary
  import Lowering
  import Modes
  import ModePasses
  import ModeRules
  import M = ModeStatements
  import H = Hir

  // ----- Calls -----

  lemma {:induction false} OrdinaryTame(e: H.Expr)
    requires OrdinaryExpr(e, true)
    ensures TameExpr(e)
    decreases e
  {
    hide Direct, H.IsComplex, PlainArgument;
    match e
    case Literal(_) =>
    case Variable(_) =>
    case Math(first, rest) =>
      OrdinaryTame(first);
      forall i | 0 <= i < |rest|
        ensures TameExpr(rest[i].operand)
      {
        var t: H.Term := rest[i];
        OrdinaryTame(t.operand);
      }
    case Condition(head, links) =>
      OrdinaryTameComparison(head);
      forall i | 0 <= i < |links|
        ensures TameComparison(links[i].comparison)
      {
        var l: H.Link := links[i];
        OrdinaryTameComparison(l.comparison);
      }
    case Unary(_, operand) => OrdinaryTame(operand);
    case Cast(value) => OrdinaryTame(value);
    case Call(_, arguments) =>
      forall i | 0 <= i < |arguments|
        ensures TameExpr(arguments[i]) && TameArgument(arguments, i)
      {
        OrdinaryTame(arguments[i]);
        DirectIsTame(arguments[i]);
      }
  }

  lemma {:induction false} OrdinaryTameComparison(c: H.Comparison)
    requires OrdinaryComparison(c, true)
    ensures TameComparison(c)
    decreases c
  {
    OrdinaryTame(c.lhs);
    OrdinaryTame(c.rhs);
  }

  lemma {:induction false} DirectIsTame(e: H.Expr)
    requires Direct(e)
    ensures H.IsComplex(e) || PlainArgument(e)
    decreases e
  {
    if e.Cast? {
      DirectIsTame(e.value);
    }
  }

  // ----- Operator lists -----

  /** An operand that the optimizer never takes for a constant. */
  predicate Varies(e: H.Expr) {
    match e
    case Literal(_) => false
    case Math(first, rest) => Varies(first) && forall i :: 0 <= i < |rest| ==> Varies(rest[i].operand)
    case Cast(value) => Varies(value)
    case _ => true
  }

  /** Such an operand, or a constant. */
  predicate Addend(e: H.Expr) {
    match e
    case Literal(_) => true
    case Cast(value) => Addend(value)
    case _ => Varies(e)
  }

  lemma {:induction false} VaryingKind(e: H.Expr)
    requires Varies(e)
    ensures ExprKind(e) == Modes.Fresh
    decreases e, 1
  {
    match e
    case Math(first, rest) =>
      VaryingList(e, first, rest);
    case Cast(value) => VaryingKind(value);
    case _ =>
  }

  lemma {:induction false} VaryingList(parent: H.Expr, first: H.Expr, rest: seq<H.Term>)
    requires first < parent && H.TermsBelow(rest, parent) && Varies(first)
    requires forall i :: 0 <= i < |rest| ==> Varies(rest[i].operand)
    ensures ListKind(parent, first, rest) == Modes.Fresh && SumsOnly(parent, first, rest)
    decreases parent, 0, |rest|
  {
    hide Varies, H.SplitPoint, ListKind, SumsOnly, Modes.OperationKind, Modes.OperationOk;
    if rest == [] {
      VaryingKind(first);
      ListOfOne(parent, first);
    } else {
      var k := H.SplitPoint(rest);
      VaryingList(parent, first, rest[..k]);
      VaryingList(parent, rest[k].operand, rest[k + 1..]);
      ListSplits(parent, first, rest);
      FreshStays(Lowering.MathOpcode(rest[k].op));
      SumsSplit(parent, first, rest);
    }
  }

  lemma ListOfOne(parent: H.Expr, first: H.Expr)
    requires first < parent
    ensures ListKind(parent, first, []) == ExprKind(first) && SumsOnly(parent, first, [])
  {
  }

  lemma ListSplits(parent: H.Expr, first: H.Expr, rest: seq<H.Term>)
    requires first < parent && H.TermsBelow(rest, parent) && rest != []
    ensures var k := H.SplitPoint(rest);
      ListKind(parent, first, rest) == Modes.OperationKind(Lowering.MathOpcode(rest[k].op),
        ListKind(parent, first, rest[..k]), ListKind(parent, rest[k].operand, rest[k + 1..]))
  {
    hide H.SplitPoint, Modes.OperationKind;
  }

  lemma SumsSplit(parent: H.Expr, first: H.Expr, rest: seq<H.Term>)
    requires first < parent && H.TermsBelow(rest, parent) && rest != []
    requires var k := H.SplitPoint(rest);
      && SumsOnly(parent, first, rest[..k]) && SumsOnly(parent, rest[k].operand, rest[k + 1..])
      && Modes.OperationOk(Lowering.MathOpcode(rest[k].op), ListKind(parent, first, rest[..k]),
                           ListKind(parent, rest[k].operand, rest[k + 1..]))
    ensures SumsOnly(parent, first, rest)
  {
    hide H.SplitPoint, ListKind, Modes.OperationKind, Modes.OperationOk;
  }

  lemma FreshStays(op: Opcode)
    ensures Modes.OperationKind(op, Modes.Fresh, Modes.Fresh) == Modes.Fresh
    ensures Modes.OperationOk(op, Modes.Fresh, Modes.Fresh)
  {
  }

  /** A constant or a sum with one, or none of that. */
  predicate Adds(k: Modes.Kind) {
    k.Fresh? || k.Constant? || k.Sum?
  }

  lemma {:induction false} AddendKind(e: H.Expr)
    requires Addend(e)
    ensures Adds(ExprKind(e))
    decreases e
  {
    match e
    case Literal(_) =>
    case Cast(value) => AddendKind(value);
    case _ => VaryingKind(e);
  }

  lemma {:induction false} SummedList(parent: H.Expr, first: H.Expr, rest: seq<H.Term>)
    requires first < parent && H.TermsBelow(rest, parent) && Addend(first)
    requires forall i :: 0 <= i < |rest| ==> rest[i].op == H.Plus && Addend(rest[i].operand)
    ensures Adds(ListKind(parent, first, rest)) && SumsOnly(parent, first, rest)
    decreases |rest|
  {
    hide Addend, H.SplitPoint, ListKind, SumsOnly, Modes.OperationKind, Modes.OperationOk;
    if rest == [] {
      AddendKind(first);
      ListOfOne(parent, first);
    } else {
      var k := H.SplitPoint(rest);
      SummedList(parent, first, rest[..k]);
      SummedList(parent, rest[k].operand, rest[k + 1..]);
      ListSplits(parent, first, rest);
      SumsAdd(ListKind(parent, first, rest[..k]), ListKind(parent, rest[k].operand, rest[k + 1..]));
      SumsSplit(parent, first, rest);
    }
  }

  lemma SumsAdd(a: Modes.Kind, b: Modes.Kind)
    requires Adds(a) && Adds(b)
    ensures Adds(Modes.OperationKind(ADD, a, b)) && Modes.OperationOk(ADD, a, b)
  {
  }

  /** Every operator list has operands that vary only, or is a sum. */
  predicate Clear(e: H.Expr) {
    match e
    case Literal(_) => true
    case Variable(_) => true
    case Math(first, rest) =>
      && Clear(first) && (forall i :: 0 <= i < |rest| ==> Clear(rest[i].operand))
      && ((Varies(first) && forall i :: 0 <= i < |rest| ==> Varies(rest[i].operand))
          || (Addend(first) && forall i :: 0 <= i < |rest| ==> rest[i].op == H.Plus && Addend(rest[i].operand)))
    case Condition(head, links) =>
      ClearComparison(head) && forall i :: 0 <= i < |links| ==> ClearComparison(links[i].comparison)
    case Unary(_, operand) => Clear(operand)
    case Cast(value) => Clear(value)
    case Call(_, arguments) => forall i :: 0 <= i < |arguments| ==> Clear(arguments[i])
  }

  predicate ClearComparison(c: H.Comparison) {
    Clear(c.lhs) && Clear(c.rhs)
  }

  lemma {:induction false} ClearIsOk(e: H.Expr)
    requires Clear(e)
    ensures ArithmeticOk(e)
    decreases e
  {
    hide Varies, Addend, SumsOnly;
    match e
    case Literal(_) =>
    case Variable(_) =>
    case Math(first, rest) =>
      ClearIsOk(first);
      forall i | 0 <= i < |rest|
        ensures ArithmeticOk(rest[i].operand)
      {
        var t: H.Term := rest[i];
        ClearIsOk(t.operand);
      }
      if Varies(first) && forall i :: 0 <= i < |rest| ==> Varies(rest[i].operand) {
        VaryingList(e, first, rest);
      } else {
        SummedList(e, first, rest);
      }
    case Condition(head, links) =>
      ClearComparisonOk(head);
      forall i | 0 <= i < |links|
        ensures ComparisonArithmetic(links[i].comparison)
      {
        var l: H.Link := links[i];
        ClearComparisonOk(l.comparison);
      }
    case Unary(_, operand) => ClearIsOk(operand);
    case Cast(value) => ClearIsOk(value);
    case Call(_, arguments) =>
      forall i | 0 <= i < |arguments|
        ensures ArithmeticOk(arguments[i])
      {
        ClearIsOk(arguments[i]);
      }
  }

  lemma {:induction false} ClearComparisonOk(c: H.Comparison)
    requires ClearComparison(c)
    ensures ComparisonArithmetic(c)
    decreases c
  {
    ClearIsOk(c.lhs);
    ClearIsOk(c.rhs);
  }

  // ----- Statements -----

  predicate ClearOption(e: Option<H.Expr>) {
    e.Some? ==> Clear(e.value)
  }

  /** Every `for` has an initial value or one of these counters, and arithmetic is clear. */
  predicate Started(s: H.Stmt, empty: set<nat>)
    decreases s
  {
    match s
    case Skip => true
    case Block(body) => forall i :: 0 <= i < |body| ==> Started(body[i], empty)
    case Declare(_, initial) => ClearOption(initial)
    case Assign(_, value) => Clear(value)
    case CallStmt(callee, arguments) => Clear(H.Call(callee, arguments))
    case If(condition, body, otherwise) =>
      && Clear(condition)
      && (forall i :: 0 <= i < |body| ==> Started(body[i], empty))
      && (forall i :: 0 <= i < |otherwise| ==> Started(otherwise[i], empty))
    case While(condition, body, _) => Clear(condition) && forall i :: 0 <= i < |body| ==> Started(body[i], empty)
    case For(counter, initializer, condition, increment, _, body) =>
      && (initializer.None? ==> counter in empty)
      && ClearOption(initializer) && Clear(condition) && Clear(increment)
      && (forall i :: 0 <= i < |body| ==> Started(body[i], empty))
    case Break => true
    case Continue => true
    case Return(result) => ClearOption(result)
  }

  /** Both conditions together are the ones the type system asks for. */
  lemma Typed(e: H.Expr)
    requires OrdinaryExpr(e, true) && Clear(e)
    ensures TameExpr(e) && ArithmeticOk(e)
  {
    hide OrdinaryExpr, Clear, TameExpr, ArithmeticOk;
    OrdinaryTame(e);
    ClearIsOk(e);
  }

  lemma TypedOption(e: Option<H.Expr>)
    requires OrdinaryOption(e, true) && ClearOption(e)
    ensures e.Some? ==> TameExpr(e.value) && ArithmeticOk(e.value)
  {
    hide OrdinaryExpr, Clear, TameExpr, ArithmeticOk;
    if e.Some? {
      Typed(e.value);
    }
  }

  lemma {:induction false} TypedStmt(s: H.Stmt, inLoop: bool, empty: set<nat>)
    requires OrdinaryStmt(s, inLoop, true) && Started(s, empty)
    ensures TameStmt(s, inLoop, empty) && M.StmtArithmetic(s)
    decreases s, 1
  {
    hide OrdinaryExpr, Clear, TameExpr, ArithmeticOk, OrdinaryOption, ClearOption;
    match s
    case Skip =>
    case Block(body) => TypedAll(body, inLoop, empty);
    case Declare(_, initial) => TypedOption(initial);
    case Assign(_, value) => Typed(value);
    case CallStmt(callee, arguments) => Typed(H.Call(callee, arguments));
    case If(condition, body, otherwise) =>
      Typed(condition);
      TypedAll(body, inLoop, empty);
      TypedAll(otherwise, inLoop, empty);
    case While(condition, body, _) =>
      Typed(condition);
      TypedAll(body, true, empty);
    case For(_, initializer, condition, increment, _, body) =>
      TypedOption(initializer);
      Typed(condition);
      Typed(increment);
      TypedAll(body, true, empty);
    case Break =>
    case Continue =>
    case Return(result) => TypedOption(result);
  }

  lemma {:induction false} TypedAll(ss: seq<H.Stmt>, inLoop: bool, empty: set<nat>)
    requires forall i :: 0 <= i < |ss| ==> OrdinaryStmt(ss[i], inLoop, true) && Started(ss[i], empty)
    ensures forall i :: 0 <= i < |ss| ==> TameStmt(ss[i], inLoop, empty) && M.StmtArithmetic(ss[i])
    decreases ss, 0
  {
    forall i | 0 <= i < |ss|
      ensures TameStmt(ss[i], inLoop, empty) && M.StmtArithmetic(ss[i])
    {
      TypedStmt(ss[i], inLoop, empty);
    }
  }

  /** The optimized code of every such function halts exactly when its source terminates, and only in the
      way the source ends, whatever the types of its operands. */
  lemma OrdinaryOptimizedCorrect(oracle: Oracle, empty: set<nat>, name: nat, parameters: seq<nat>, body: seq<H.Stmt>,
                                 w: World, start: Machine)
    requires forall i :: 0 <= i < |body| ==> OrdinaryStmt(body[i], false, true) && Started(body[i], empty)
    requires ModePasses.EmptyKept(oracle, empty) && ModePasses.AlwaysDistinct(oracle)
    requires ModeRules.TotalWeight(Compiled(name, parameters, body)) <= ModeRules.MOST
    requires IsEntry(start) && |parameters| <= MAX_REGISTER_ARGUMENTS + |w.incoming|
    ensures var prog := Optimized(oracle, Compiled(name, parameters, body)).prog;
      && (Halts(prog, w, start) <==> Terminates(w, start.slots, parameters, body))
      && (forall k: nat, fuel: nat ::
            var m := Run(prog, w, start, k);
            var r := SourceRun(w, fuel, start.slots, parameters, body);
            !m.status.Running? && !r.OutOfFuel? ==> SameEnd(m, r))
  {
    hide OrdinaryStmt, Started, TameStmt, M.StmtArithmetic, H.StmtOk, ModePasses.EmptyKept, ModePasses.AlwaysDistinct,
      Optimized, ModeRules.TotalWeight, Run, SourceRun, SameEnd, Compiled, Terminates, Halts;
    OrdinaryAllOk(body, false, true);
    TypedAll(body, false, empty);
    TameCorrect(oracle, empty, name, parameters, body, w, start);
  }
}
