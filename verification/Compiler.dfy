/** From source to optimized code: the lowering, the final EOF and the optimizer together. */
module Compiler {
  import opened Words
  import opened Environment
  import opened Lir
  import opened Lowering
  import opened Runs
  import opened FunctionSim
  import opened Optimizing
  import M = ModeStatements
  import ModeLowering
  import Modes
  import ModePasses
  import ModeRules
  import R = Rewriting
  import OptimizerProof
  import H = Hir

  /** The code of one function as the optimizer gets it. */
  function Compiled(name: nat, parameters: seq<nat>, body: seq<H.Stmt>): (r: seq<Instr>)
    ensures EndsInEOF(r)
  {
    LowerFunction(name, parameters, FunctionBody(body)) + [END]
  }

  lemma {:induction false} FindWithEnd(prog: seq<Instr>, id: nat)
    ensures Find(prog + [END], id) == if Find(prog, id) < |prog| then Find(prog, id) else |prog| + 1
    decreases |prog|
  {
    if prog != [] {
      assert (prog + [END])[1..] == prog[1..] + [END];
      FindWithEnd(prog[1..], id);
    }
  }

  lemma EndStops(w: World, m: Machine)
    ensures Effect(w, m, END) == m.(status := Stuck)
  {
  }

  /** Running past the end stops the machine with or without the EOF. */
  lemma StepWithEnd(prog: seq<Instr>, w: World, m: Machine)
    ensures Step(prog + [END], w, m) == Step(prog, w, m)
  {
    hide Effect, Read, Find;
    if m.pc < |prog| {
      var i := prog[m.pc];
      if i.dst.Label? {
        FindWithEnd(prog, i.dst.id);
      }
    } else if m.pc == |prog| {
      EndStops(w, m);
    }
  }

  lemma {:induction false} RunWithEnd(prog: seq<Instr>, w: World, m: Machine, k: nat)
    ensures Run(prog + [END], w, m, k) == Run(prog, w, m, k)
    decreases k
  {
    hide Step;
    if k > 0 {
      StepWithEnd(prog, w, m);
      RunWithEnd(prog, w, Step(prog, w, m), k - 1);
    }
  }

  lemma CompiledRun(name: nat, parameters: seq<nat>, body: seq<H.Stmt>, w: World, m: Machine, k: nat)
    ensures Run(Compiled(name, parameters, body), w, m, k)
      == Run(LowerFunction(name, parameters, FunctionBody(body)), w, m, k)
  {
    hide Run, LowerFunction, FunctionBody;
    RunWithEnd(LowerFunction(name, parameters, FunctionBody(body)), w, m, k);
  }

  /** Programs that behave the same halt together and end the same. */
  lemma SameHalts(P: seq<Instr>, Q: seq<Instr>, w: World, m: Machine, k: nat)
    requires R.Refines(P, Q) && R.Start(m) && !Run(P, w, m, k).status.Running?
    ensures exists k': nat :: R.SameEnd(Run(P, w, m, k), Run(Q, w, m, k'))
  {
    hide Run, Step;
    assert R.CoveredFrom(P, Q, w, m, m, k);
    var k': nat :| R.CoveredAt(P, Q, w, m, m, k, k');
    assert R.SameEnd(Run(P, w, m, k), Run(Q, w, m, k'));
  }

  /** The optimized code of a function halts exactly when the source terminates, and only in the way
      the source ends, provided the side conditions of the rewrites made hold. */
  lemma CompilerCorrect(oracle: Oracle, name: nat, parameters: seq<nat>, body: seq<H.Stmt>, w: World, start: Machine)
    requires H.StmtsOk(body, false)
    requires IsEntry(start) && |parameters| <= MAX_REGISTER_ARGUMENTS + |w.incoming|
    requires Optimized(oracle, Compiled(name, parameters, body)).Exact()
    ensures var prog := Optimized(oracle, Compiled(name, parameters, body)).prog;
      && (Halts(prog, w, start) <==> Terminates(w, start.slots, parameters, body))
      && (forall k: nat, fuel: nat ::
            var m := Run(prog, w, start, k);
            var r := SourceRun(w, fuel, start.slots, parameters, body);
            !m.status.Running? && !r.OutOfFuel? ==> SameEnd(m, r))
  {
    hide Run, Step, H.StmtsOk, LowerFunction, FunctionBody, SourceRun, SameEnd, Compiled, Optimized, R.Refines,
        R.SameEnd,
      Terminates;
    var P := LowerFunction(name, parameters, FunctionBody(body));
    var C := Compiled(name, parameters, body);
    var Q := Optimized(oracle, C).prog;
    OptimizerProof.OptimizerKeepsBehaviour(oracle, C);
    FunctionCorrect(name, parameters, body, w, start);
    EntryStarts(start);
    forall k: nat | !Run(Q, w, start, k).status.Running?
      ensures Halts(P, w, start)
      ensures forall fuel: nat :: !SourceRun(w, fuel, start.slots, parameters, body).OutOfFuel? ==>
        SameEnd(Run(Q, w, start, k), SourceRun(w, fuel, start.slots, parameters, body))
    {
      OptimizedEnds(C, Q, name, parameters, body, w, start, k);
    }
    forall k: nat | !Run(P, w, start, k).status.Running?
      ensures Halts(Q, w, start)
    {
      CompiledRun(name, parameters, body, w, start, k);
      SameHalts(C, Q, w, start, k);
      var k': nat :| R.SameEnd(Run(C, w, start, k), Run(Q, w, start, k'));
      EndStatus(Run(C, w, start, k), Run(Q, w, start, k'));
    }
  }

  lemma EntryStarts(start: Machine)
    requires IsEntry(start)
    ensures R.Start(start)
  {
  }

  lemma EndStatus(p: Machine, q: Machine)
    requires R.SameEnd(p, q)
    ensures p.status == q.status
  {
  }

  lemma SameEndAs(p: Machine, q: Machine, r: H.Result)
    requires R.SameEnd(q, p) && SameEnd(p, r)
    ensures SameEnd(q, r)
  {
  }

  lemma OptimizedEnds(C: seq<Instr>, Q: seq<Instr>, name: nat, parameters: seq<nat>, body: seq<H.Stmt>, w: World,
                      start: Machine, k: nat)
    requires H.StmtsOk(body, false) && C == Compiled(name, parameters, body) && R.Refines(Q, C)
    requires IsEntry(start) && |parameters| <= MAX_REGISTER_ARGUMENTS + |w.incoming|
    requires !Run(Q, w, start, k).status.Running?
    ensures Halts(LowerFunction(name, parameters, FunctionBody(body)), w, start)
    ensures forall fuel: nat :: !SourceRun(w, fuel, start.slots, parameters, body).OutOfFuel? ==>
      SameEnd(Run(Q, w, start, k), SourceRun(w, fuel, start.slots, parameters, body))
  {
    hide Run, Step, H.StmtsOk, LowerFunction, FunctionBody, SourceRun, SameEnd, Compiled, R.Refines, R.SameEnd;
    EntryStarts(start);
    SameHalts(Q, C, w, start, k);
    var k': nat :| R.SameEnd(Run(Q, w, start, k), Run(C, w, start, k'));
    EndStatus(Run(Q, w, start, k), Run(C, w, start, k'));
    CompiledRun(name, parameters, body, w, start, k');
    FunctionCorrect(name, parameters, body, w, start);
    forall fuel: nat | !SourceRun(w, fuel, start.slots, parameters, body).OutOfFuel?
      ensures SameEnd(Run(Q, w, start, k), SourceRun(w, fuel, start.slots, parameters, body))
    {
      SameEndAs(Run(C, w, start, k'), Run(Q, w, start, k), SourceRun(w, fuel, start.slots, parameters, body));
    }
  }

  // ----- Conditions that can be read off the source -----

  /** Calls have at most six arguments and nothing but plain ones among them that could be overwritten,
      and every `for` starts from a written value or has one of these counters. */
  ghost predicate Tame(body: seq<H.Stmt>, empty: set<nat>) {
    M.StmtsTypable(body, false, Modes.Terms(false, empty))
  }

  /** The same, and operators stand next to constants only where folding them is right. */
  ghost predicate TameArithmetic(body: seq<H.Stmt>, empty: set<nat>) {
    M.StmtsTypable(body, false, Modes.Terms(true, empty))
  }

  lemma BodyTypable(body: seq<H.Stmt>, terms: Modes.Terms)
    requires M.StmtsTypable(body, false, terms)
    ensures M.StmtsTypable(FunctionBody(body), false, terms)
  {
    assert M.StmtTypable(H.Return(None), false, terms);
  }

  /** Every value the optimizer moves, drops or overwrites in such a function is dead where it says so. */
  lemma TameIsSafe(oracle: Oracle, empty: set<nat>, name: nat, parameters: seq<nat>, body: seq<H.Stmt>)
    requires Tame(body, empty) && ModePasses.EmptyKept(oracle, empty) && ModePasses.AlwaysDistinct(oracle)
    ensures Optimized(oracle, Compiled(name, parameters, body)).safe
  {
    hide M.StmtsTypable, ModePasses.EmptyKept, LowerFunction, FunctionBody, ModePasses.AlwaysDistinct, Optimized;
    var terms := Modes.Terms(false, empty);
    BodyTypable(body, terms);
    M.LoweredIsTyped(name, parameters, FunctionBody(body), terms);
    ModePasses.TypedIsSafe(oracle, Compiled(name, parameters, body), terms);
  }

  /** With its arithmetic as it should be, every rewrite of such a function is right. */
  lemma TameIsExact(oracle: Oracle, empty: set<nat>, name: nat, parameters: seq<nat>, body: seq<H.Stmt>)
    requires TameArithmetic(body, empty) && ModePasses.EmptyKept(oracle, empty) && ModePasses.AlwaysDistinct(oracle)
    requires ModeRules.TotalWeight(Compiled(name, parameters, body)) <= ModeRules.MOST
    ensures Optimized(oracle, Compiled(name, parameters, body)).Exact()
  {
    hide M.StmtsTypable, ModePasses.EmptyKept, LowerFunction, FunctionBody, ModePasses.AlwaysDistinct, Optimized,
      ModeRules.TotalWeight;
    var terms := Modes.Terms(true, empty);
    BodyTypable(body, terms);
    M.LoweredIsTyped(name, parameters, FunctionBody(body), terms);
    ModePasses.TypedIsSafe(oracle, Compiled(name, parameters, body), terms);
  }

  /** So the optimized code of such a function halts exactly when the source terminates, and only in
      the way the source ends, whatever the types of its operands. */
  lemma TameCorrect(oracle: Oracle, empty: set<nat>, name: nat, parameters: seq<nat>, body: seq<H.Stmt>, w: World,
                    start: Machine)
    requires H.StmtsOk(body, false) && TameArithmetic(body, empty) && ModePasses.EmptyKept(oracle, empty)
    requires ModePasses.AlwaysDistinct(oracle)
    requires ModeRules.TotalWeight(Compiled(name, parameters, body)) <= ModeRules.MOST
    requires IsEntry(start) && |parameters| <= MAX_REGISTER_ARGUMENTS + |w.incoming|
    ensures var prog := Optimized(oracle, Compiled(name, parameters, body)).prog;
      && (Halts(prog, w, start) <==> Terminates(w, start.slots, parameters, body))
      && (forall k: nat, fuel: nat ::
            var m := Run(prog, w, start, k);
            var r := SourceRun(w, fuel, start.slots, parameters, body);
            !m.status.Running? && !r.OutOfFuel? ==> SameEnd(m, r))
  {
    hide TameArithmetic, ModePasses.EmptyKept, ModePasses.AlwaysDistinct, Optimized, ModeRules.TotalWeight, H.StmtsOk,
      Run, SourceRun, SameEnd, Compiled, Terminates, Halts;
    TameIsExact(oracle, empty, name, parameters, body);
    CompilerCorrect(oracle, name, parameters, body, w, start);
  }

  /** `x = a - 1 + 2; f(a + b)`, then a loop with a counter i of its own, and one with x as its counter,
      whose written start is dropped. Both call f with their counter, below 10. */
  function MixedBody(a: nat, b: nat, x: nat, i: nat, f: nat): seq<H.Stmt> {
    var below := (c: nat) => H.Condition(H.Comparison(H.Variable(c), H.Lt, H.Literal(10)), []);
    [H.Assign(x, H.Math(H.Variable(a), [H.Term(H.Minus, H.Literal(1)), H.Term(H.Plus, H.Literal(2))])),
     H.CallStmt(f, [H.Math(H.Variable(a), [H.Term(H.Plus, H.Variable(b))])]),
     H.For(i, Some(H.Literal(0)), below(i), H.Literal(1), false, [H.CallStmt(f, [H.Variable(i)])]),
     H.For(x, None, below(x), H.Literal(1), false, [H.CallStmt(f, [H.Variable(x)])])]
  }

  lemma SumTypable(a: nat, b: nat, terms: Modes.Terms)
    ensures var e := H.Math(H.Variable(a), [H.Term(H.Plus, H.Variable(b))]);
      ModeLowering.Typable(e, terms) && H.ExprOk(e)
  {
    var e := H.Math(H.Variable(a), [H.Term(H.Plus, H.Variable(b))]);
    assert H.SplitPoint(e.rest) == 0 && e.rest[..0] == [] && e.rest[1..] == [];
    var t: H.Term := e.rest[0];
    var b' := t.operand;
    assert ModeLowering.TameExpr(b') && ModeLowering.ArithmeticOk(b') && H.ExprOk(b');
    assert ModeLowering.ListKind(e, e.first, []) == ModeLowering.ExprKind(e.first);
    assert ModeLowering.SumsOnly(e, e.first, []) && ModeLowering.SumsOnly(e, b', []);
    assert ModeLowering.ListKind(e, b', []) == ModeLowering.ExprKind(b');
    assert ModeLowering.SumsOnly(e, e.first, e.rest);
  }

  lemma DifferenceTypable(a: nat, m: Word, n: Word, terms: Modes.Terms)
    ensures var e := H.Math(H.Variable(a), [H.Term(H.Minus, H.Literal(m)), H.Term(H.Plus, H.Literal(n))]);
      ModeLowering.Typable(e, terms) && H.ExprOk(e)
  {
    var e := H.Math(H.Variable(a), [H.Term(H.Minus, H.Literal(m)), H.Term(H.Plus, H.Literal(n))]);
    var front := [H.Term(H.Minus, H.Literal(m))];
    assert e.rest[1..] == [H.Term(H.Plus, H.Literal(n))] && H.SplitPoint(e.rest[1..]) == 0;
    assert H.SplitPoint(e.rest) == 1 && e.rest[..1] == front && e.rest[2..] == [];
    assert H.SplitPoint(front) == 0 && front[..0] == [] && front[1..] == [];
    var one, two := H.Literal(m), H.Literal(n);
    assert e.rest[0].operand == one && e.rest[1].operand == two;
    assert ModeLowering.TameExpr(one) && ModeLowering.TameExpr(two);
    assert ModeLowering.ArithmeticOk(one) && ModeLowering.ArithmeticOk(two) && H.ExprOk(one) && H.ExprOk(two);
    assert ModeLowering.ListKind(e, e.first, []) == ModeLowering.ExprKind(e.first);
    assert ModeLowering.ListKind(e, one, []) == ModeLowering.ExprKind(one);
    assert ModeLowering.ListKind(e, two, []) == ModeLowering.ExprKind(two);
    assert ModeLowering.ListKind(e, e.first, front) == Modes.Difference;
    assert ModeLowering.SumsOnly(e, e.first, []) && ModeLowering.SumsOnly(e, one, []);
    assert ModeLowering.SumsOnly(e, two, []);
    assert ModeLowering.SumsOnly(e, e.first, front);
    assert ModeLowering.SumsOnly(e, e.first, e.rest);
  }

  lemma AssignTame(uid: nat, e: H.Expr, terms: Modes.Terms)
    requires ModeLowering.Typable(e, terms) && H.ExprOk(e)
    ensures M.StmtTypable(H.Assign(uid, e), false, terms) && H.StmtOk(H.Assign(uid, e), false)
  {
    hide H.ExprOk;
  }

  /** A call with one argument. */
  lemma CallTame(f: nat, e: H.Expr, inLoop: bool, terms: Modes.Terms)
    requires terms.checked && ModeLowering.Typable(e, terms) && H.ExprOk(e)
    ensures M.StmtTypable(H.CallStmt(f, [e]), inLoop, terms) && H.StmtOk(H.CallStmt(f, [e]), inLoop)
  {
    hide H.IsComplex, H.Spares;
    var call := H.Call(f, [e]);
    assert ModeLowering.TameArgument([e], 0);
    assert H.ArgumentsOk([e]);
    assert ModeLowering.TameExpr(call) && ModeLowering.ArithmeticOk(call) && H.ExprOk(call);
  }

  lemma LoopTame(s: H.Stmt, terms: Modes.Terms)
    requires s.For? && |s.body| == 1
    requires if s.initializer.Some? then ModeLowering.Typable(s.initializer.value, terms)
               && H.ExprOk(s.initializer.value)
             else s.counter in terms.empty
    requires ModeLowering.Typable(s.condition, terms) && H.ExprOk(s.condition)
    requires ModeLowering.Typable(s.increment, terms) && H.ExprOk(s.increment)
    requires M.StmtTypable(s.body[0], true, terms) && H.StmtOk(s.body[0], true)
    ensures M.StmtTypable(s, false, terms) && H.StmtOk(s, false)
  {
    hide H.ExprOk;
  }

  lemma BelowTypable(i: nat, n: Word, terms: Modes.Terms)
    ensures var e := H.Condition(H.Comparison(H.Variable(i), H.Lt, H.Literal(n)), []);
      ModeLowering.Typable(e, terms) && H.ExprOk(e)
  {
    var c := H.Comparison(H.Variable(i), H.Lt, H.Literal(n));
    assert ModeLowering.TameExpr(c.lhs) && ModeLowering.TameExpr(c.rhs) && H.ExprOk(c.lhs) && H.ExprOk(c.rhs);
    assert ModeLowering.ArithmeticOk(c.lhs) && ModeLowering.ArithmeticOk(c.rhs);
    assert ModeLowering.TameComparison(c) && ModeLowering.ComparisonArithmetic(c) && H.ComparisonOk(c);
  }

  /** Arithmetic, calls and loops of both forms may be mixed. */
  lemma MixedIsTame(a: nat, b: nat, x: nat, i: nat, f: nat)
    ensures TameArithmetic(MixedBody(a, b, x, i, f), {x}) && H.StmtsOk(MixedBody(a, b, x, i, f), false)
  {
    hide ModeLowering.Typable, M.StmtTypable, H.StmtOk;
    var ss, terms := MixedBody(a, b, x, i, f), Modes.Terms(true, {x});
    DifferenceTypable(a, 1, 2, terms);
    SumTypable(a, b, terms);
    BelowTypable(i, 10, terms);
    BelowTypable(x, 10, terms);
    PlainTypable(terms);
    AssignTame(x, ss[0].value, terms);
    CallTame(f, ss[1].arguments[0], false, terms);
    CallTame(f, H.Variable(i), true, terms);
    CallTame(f, H.Variable(x), true, terms);
    LoopTame(ss[2], terms);
    LoopTame(ss[3], terms);
  }

  lemma PlainTypable(terms: Modes.Terms)
    ensures forall n: Word :: ModeLowering.Typable(H.Literal(n), terms)
    ensures forall uid: nat :: ModeLowering.Typable(H.Variable(uid), terms)
  {
  }
}
