/** Source as it is usually written: calls none of whose arguments is a unary operator. All results on
    compiled code are about such source, without a look at how the lowering sorts arguments. */
module Ordinary {
  import opened Words
  import opened Environment
  import opened Lir
  import opened Lowering
  import opened Runs
  import opened FunctionSim
  import ArgumentLimits
  import StructInitializers
  import H = Hir

  // ----- Arguments -----

  /** A literal, a variable, an operator list, a condition, a call, or a cast of one of these. */
  predicate Direct(e: H.Expr) {
    match e
    case Literal(_) => true
    case Variable(_) => true
    case Math(_, _) => true
    case Condition(_, _) => true
    case Call(_, _) => true
    case Cast(value) => Direct(value)
    case Unary(_, _) => false
  }

  /** A literal, a variable or a cast of one. */
  predicate Simple(e: H.Expr) {
    match e
    case Literal(_) => true
    case Variable(_) => true
    case Cast(value) => Simple(value)
    case _ => false
  }

  /** From the seventh argument on no simple one stands behind one that is not. */
  predicate StackSorted(es: seq<H.Expr>) {
    forall i, j :: 6 <= i < j < |es| && Simple(es[j]) ==> Simple(es[i])
  }

  lemma {:induction false} DirectKinds(e: H.Expr)
    requires Direct(e)
    ensures H.IsComplex(e) <==> !Simple(e)
    ensures Simple(e) ==> forall j: nat :: H.Spares(e, j)
    decreases e
  {
    if e.Cast? {
      DirectKinds(e.value);
    }
  }

  /** No evaluation of such arguments destroys another one. */
  lemma DirectArguments(es: seq<H.Expr>)
    requires forall i :: 0 <= i < |es| ==> Direct(es[i])
    requires |es| <= 6 || StackSorted(es)
    ensures H.ArgumentsOk(es)
  {
    hide Direct, H.IsComplex, H.Spares, Simple;
    forall i | 0 <= i < |es|
      ensures H.IsComplex(es[i]) <==> !Simple(es[i])
      ensures Simple(es[i]) ==> forall j: nat :: H.Spares(es[i], j)
    {
      DirectKinds(es[i]);
    }
  }

  /** So they arrive, in every world and from every state. */
  lemma DirectArrive(callee: nat, es: seq<H.Expr>)
    requires forall i :: 0 <= i < |es| ==> Direct(es[i]) && OrdinaryExpr(es[i], false)
    requires |es| <= 6 || StackSorted(es)
    ensures ArgumentLimits.Arrives(callee, es)
  {
    hide ArgumentLimits.Arrives, Direct, OrdinaryExpr, H.ArgumentsOk;
    DirectArguments(es);
    forall i | 0 <= i < |es|
      ensures H.ExprOk(es[i])
    {
      OrdinaryExprOk(es[i], false);
    }
    ArgumentLimits.OkArrives(callee, es);
  }

  /** A call with literals and variables only: each is loaded and put in its place, from the last to
      the first, and the call follows. */
  lemma {:induction false} SimpleCode(es: seq<H.Expr>, total: nat, n: nat)
    requires forall i :: 0 <= i < |es| ==> es[i].Literal? || es[i].Variable?
    ensures LowerComplexArguments(es, n) == Piece([], n) && StoreComplexArguments(es, total) == []
    ensures var x := LowerPlainArguments(es, total, n);
      && x.next == n && |x.code| == 2 * |es|
      && forall i :: 0 <= i < |es| ==> StoresAt(x.code, es, i, total)
    decreases |es|
  {
    hide StoresAt;
    if es != [] {
      var last := |es| - 1;
      SimpleCode(es[..last], total, n);
      var more := LowerPlainArguments(es[..last], total, n).code;
      var load, store := Load(T1, LowerExpr(es[last], n).operand), StoreArgument(last, total);
      LastPlain(es, total, n);
      forall i | 0 <= i < |es|
        ensures StoresAt([load, store] + more, es, i, total)
      {
        if i < last {
          StoresBehind(load, store, more, es, i, total);
        } else {
          StoresLast(es, more, n, total);
        }
      }
    }
  }

  lemma LastPlain(es: seq<H.Expr>, total: nat, n: nat)
    requires es != [] && (es[|es| - 1].Literal? || es[|es| - 1].Variable?)
    ensures var front := es[..|es| - 1];
      && LowerComplexArguments(es, n) == LowerComplexArguments(front, n)
      && StoreComplexArguments(es, total) == StoreComplexArguments(front, total)
      && LowerPlainArguments(es, total, n) == Piece(
          [Load(T1, LowerExpr(es[|es| - 1], n).operand), StoreArgument(|es| - 1, total)]
          + LowerPlainArguments(front, total, n).code,
          LowerPlainArguments(front, total, n).next)
  {
  }

  lemma StoresBehind(load: Instr, store: Instr, more: seq<Instr>, es: seq<H.Expr>, i: nat, total: nat)
    requires es != [] && |more| == 2 * (|es| - 1) && i < |es| - 1 && (es[i].Literal? || es[i].Variable?)
    requires StoresAt(more, es[..|es| - 1], i, total)
    ensures StoresAt([load, store] + more, es, i, total)
  {
  }

  lemma StoresLast(es: seq<H.Expr>, more: seq<Instr>, n: nat, total: nat)
    requires es != [] && |more| == 2 * (|es| - 1) && (es[|es| - 1].Literal? || es[|es| - 1].Variable?)
    ensures StoresAt([Load(T1, LowerExpr(es[|es| - 1], n).operand), StoreArgument(|es| - 1, total)] + more, es,
                     |es| - 1, total)
  {
  }

  predicate StoresAt(code: seq<Instr>, es: seq<H.Expr>, i: nat, total: nat)
    requires |code| == 2 * |es| && i < |es| && (es[i].Literal? || es[i].Variable?)
  {
    var k := 2 * (|es| - 1 - i);
    && code[k] == Load(T1, if es[i].Literal? then Imm(es[i].n) else Local(es[i].uid))
    && code[k + 1] == Store(Argument(i, total, i, true), T1)
  }

  lemma SimpleCall(callee: nat, es: seq<H.Expr>, n: nat)
    requires forall i :: 0 <= i < |es| ==> es[i].Literal? || es[i].Variable?
    ensures var code := LowerExpr(H.Call(callee, es), n).code;
      && |code| == 2 * |es| + 1
      && code[2 * |es|] == Instr(CALL, Argument(0, |es|, 0, true), Function(callee))
      && forall i :: 0 <= i < |es| ==> StoresAt(code[..2 * |es|], es, i, |es|)
  {
    hide StoresAt, LowerPlainArguments, LowerComplexArguments, StoreComplexArguments;
    SimpleCode(es, |es|, n);
    var x := LowerPlainArguments(es, |es|, n).code;
    var code := LowerExpr(H.Call(callee, es), n).code;
    assert code == x + [CallInstr(callee, |es|)];
    assert code[..2 * |es|] == x;
  }

  /** These are values that a member of a struct can be given. */
  lemma AcceptedMember(e: H.Expr)
    requires (e.Literal? || e.Variable? || e.Math? || e.Condition? || e.Call?) && H.ExprOk(e)
    ensures StructInitializers.MemberOk(e)
  {
    hide H.ExprOk;
    DirectKinds(e);
  }

  // ----- Expressions -----

  /** Every call inside has direct arguments, at most six, or if there may be more of them sorted ones. */
  predicate OrdinaryExpr(e: H.Expr, few: bool) {
    match e
    case Literal(_) => true
    case Variable(_) => true
    case Math(first, rest) =>
      OrdinaryExpr(first, few) && forall i :: 0 <= i < |rest| ==> OrdinaryExpr(rest[i].operand, few)
    case Condition(head, links) =>
      && OrdinaryComparison(head, few)
      && forall i :: 0 <= i < |links| ==> OrdinaryComparison(links[i].comparison, few)
    case Unary(_, operand) => OrdinaryExpr(operand, few)
    case Cast(value) => OrdinaryExpr(value, few)
    case Call(_, arguments) =>
      && (forall i :: 0 <= i < |arguments| ==> Direct(arguments[i]) && OrdinaryExpr(arguments[i], few))
      && (|arguments| <= 6 || (!few && StackSorted(arguments)))
  }

  predicate OrdinaryComparison(c: H.Comparison, few: bool) {
    OrdinaryExpr(c.lhs, few) && OrdinaryExpr(c.rhs, few)
  }

  lemma {:induction false} OrdinaryExprOk(e: H.Expr, few: bool)
    requires OrdinaryExpr(e, few)
    ensures H.ExprOk(e)
    decreases e
  {
    hide Direct, H.ArgumentsOk, StackSorted;
    match e
    case Literal(_) =>
    case Variable(_) =>
    case Math(first, rest) =>
      OrdinaryExprOk(first, few);
      forall i | 0 <= i < |rest|
        ensures H.ExprOk(rest[i].operand)
      {
        var t: H.Term := rest[i];
        OrdinaryExprOk(t.operand, few);
      }
    case Condition(head, links) =>
      OrdinaryComparisonOk(head, few);
      forall i | 0 <= i < |links|
        ensures H.ComparisonOk(links[i].comparison)
      {
        var l: H.Link := links[i];
        OrdinaryComparisonOk(l.comparison, few);
      }
    case Unary(_, operand) => OrdinaryExprOk(operand, few);
    case Cast(value) => OrdinaryExprOk(value, few);
    case Call(_, arguments) =>
      DirectArguments(arguments);
      forall i | 0 <= i < |arguments|
        ensures H.ExprOk(arguments[i])
      {
        OrdinaryExprOk(arguments[i], few);
      }
  }

  lemma {:induction false} OrdinaryComparisonOk(c: H.Comparison, few: bool)
    requires OrdinaryComparison(c, few)
    ensures H.ComparisonOk(c)
    decreases c
  {
    OrdinaryExprOk(c.lhs, few);
    OrdinaryExprOk(c.rhs, few);
  }

  // ----- Statements -----

  predicate OrdinaryOption(e: Option<H.Expr>, few: bool) {
    e.Some? ==> OrdinaryExpr(e.value, few)
  }

  /** Expressions are ordinary, and breaks and continues are in loops. */
  predicate OrdinaryStmt(s: H.Stmt, inLoop: bool, few: bool)
    decreases s
  {
    match s
    case Skip => true
    case Block(body) => forall i :: 0 <= i < |body| ==> OrdinaryStmt(body[i], inLoop, few)
    case Declare(_, initial) => OrdinaryOption(initial, few)
    case Assign(_, value) => OrdinaryExpr(value, few)
    case CallStmt(callee, arguments) => OrdinaryExpr(H.Call(callee, arguments), few)
    case If(condition, body, otherwise) =>
      && OrdinaryExpr(condition, few)
      && (forall i :: 0 <= i < |body| ==> OrdinaryStmt(body[i], inLoop, few))
      && (forall i :: 0 <= i < |otherwise| ==> OrdinaryStmt(otherwise[i], inLoop, few))
    case While(condition, body, _) =>
      OrdinaryExpr(condition, few) && forall i :: 0 <= i < |body| ==> OrdinaryStmt(body[i], true, few)
    case For(_, initializer, condition, increment, _, body) =>
      && OrdinaryOption(initializer, few) && OrdinaryExpr(condition, few) && OrdinaryExpr(increment, few)
      && (forall i :: 0 <= i < |body| ==> OrdinaryStmt(body[i], true, few))
    case Break => inLoop
    case Continue => inLoop
    case Return(result) => OrdinaryOption(result, few)
  }

  lemma OptionOk(e: Option<H.Expr>, few: bool)
    requires OrdinaryOption(e, few)
    ensures H.OptionOk(e)
  {
    hide OrdinaryExpr, H.ExprOk;
    if e.Some? {
      OrdinaryExprOk(e.value, few);
    }
  }

  lemma {:induction false} OrdinaryStmtOk(s: H.Stmt, inLoop: bool, few: bool)
    requires OrdinaryStmt(s, inLoop, few)
    ensures H.StmtOk(s, inLoop)
    decreases s, 1
  {
    hide OrdinaryExpr, H.ExprOk, OrdinaryOption, H.OptionOk;
    match s
    case Skip =>
    case Block(body) => OrdinaryAllOk(body, inLoop, few);
    case Declare(_, initial) => OptionOk(initial, few);
    case Assign(_, value) => OrdinaryExprOk(value, few);
    case CallStmt(callee, arguments) => OrdinaryExprOk(H.Call(callee, arguments), few);
    case If(condition, body, otherwise) =>
      OrdinaryExprOk(condition, few);
      OrdinaryAllOk(body, inLoop, few);
      OrdinaryAllOk(otherwise, inLoop, few);
    case While(condition, body, _) =>
      OrdinaryExprOk(condition, few);
      OrdinaryAllOk(body, true, few);
    case For(_, initializer, condition, increment, _, body) =>
      OptionOk(initializer, few);
      OrdinaryExprOk(condition, few);
      OrdinaryExprOk(increment, few);
      OrdinaryAllOk(body, true, few);
    case Break =>
    case Continue =>
    case Return(result) => OptionOk(result, few);
  }

  lemma {:induction false} OrdinaryAllOk(ss: seq<H.Stmt>, inLoop: bool, few: bool)
    requires forall i :: 0 <= i < |ss| ==> OrdinaryStmt(ss[i], inLoop, few)
    ensures forall i :: 0 <= i < |ss| ==> H.StmtOk(ss[i], inLoop)
    decreases ss, 0
  {
    forall i | 0 <= i < |ss|
      ensures H.StmtOk(ss[i], inLoop)
    {
      OrdinaryStmtOk(ss[i], inLoop, few);
    }
  }

  /** The compiled code of every such function halts exactly when its source terminates, and then only
      in the way the source ends. */
  lemma OrdinaryCorrect(name: nat, parameters: seq<nat>, body: seq<H.Stmt>, w: World, start: Machine)
    requires forall i :: 0 <= i < |body| ==> OrdinaryStmt(body[i], false, false)
    requires IsEntry(start) && |parameters| <= MAX_REGISTER_ARGUMENTS + |w.incoming|
    ensures var prog := LowerFunction(name, parameters, FunctionBody(body));
      && (Halts(prog, w, start) <==> Terminates(w, start.slots, parameters, body))
      && (forall k: nat, fuel: nat ::
            var m := Run(prog, w, start, k);
            var r := SourceRun(w, fuel, start.slots, parameters, body);
            !m.status.Running? && !r.OutOfFuel? ==> SameEnd(m, r))
  {
    hide OrdinaryStmt, H.StmtOk, Run, Terminates, SourceRun, SameEnd, LowerFunction, FunctionBody, Halts;
    OrdinaryAllOk(body, false, false);
    FunctionCorrect(name, parameters, body, w, start);
  }
}
