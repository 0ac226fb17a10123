/** Lowered expressions compute the value of their source: nested math, conditions, unary
    operators, casts and calls, with faults, calls in order, and the operand stack restored. */
module ExprSim {
  import opened Words
  import opened Environment
  import opened Lir
  import opened Lowering
  import opened Runs
  import opened Steps
  import opened Fragments
  import opened CallSim
  import opened Precedence
  import opened Regions
  import H = Hir

  // ----- Simulation -----

  /** The code of an expression has run: its operand reads the value, or the machine faulted. */
  ghost predicate Evaluated(w: World, m: Machine, m': Machine, p: nat, x: Operand, r: H.Value) {
    if r.Val? then Reached(m, m', p, m.stack, r.trace) && Read(w, m', x) == Some(r.v)
    else FaultedFrom(m, m', r.trace)
  }

  /** The same for code that replaces what was above `rest` on the stack by the value. */
  ghost predicate JoinedTo(m: Machine, m': Machine, p: nat, rest: seq<Word>, r: H.Value) {
    if r.Val? then Reached(m, m', p, rest + [r.v], r.trace) else FaultedFrom(m, m', r.trace)
  }

  ghost predicate Room(m: Machine, need: nat, low: nat, high: nat) {
    low <= |m.stack| && |m.stack| + need <= high
  }

  lemma {:induction false} SimPushed(prog: seq<Instr>, w: World, m: Machine, e: H.Expr, n: nat, low: nat, high: nat)
    returns (k: nat)
    requires H.ExprOk(e)
    requires Ready(prog, m, LowerPushed(e, n).code) && Room(m, PushedSlots(e), low, high)
    ensures Inside(prog, w, m, k, low, high)
    ensures JoinedTo(m, Run(prog, w, m, k), m.pc + |LowerPushed(e, n).code|, m.stack, H.Eval(w, m.locals, m.trace, e))
    decreases e, 2, 0
  {
    hide Step, Read, H.Eval, LowerExpr;
    var x := LowerExpr(e, n);
    AtSplit(prog, m.pc, x.code, [Load(T1, x.operand), Push(T1)]);
    var r := H.Eval(w, m.locals, m.trace, e);
    k := SimExpr(prog, w, m, e, n, low, high);
    var m1 := Run(prog, w, m, k);
    if r.Val? {
      var j := RunLoadPush(prog, w, m1, x.operand, r.v, low, high);
      Sequence(prog, w, m, k, j, low, high);
      k := k + j;
    }
  }

  function LowerList(first: H.Expr, rest: seq<H.Term>, n: nat): Piece {
    var f := LowerPushed(first, n);
    var r := LowerTerms(rest, [], f.next);
    Piece(f.code + r.code, r.next)
  }

  ghost predicate OperandOk(parent: H.Expr, e: H.Expr, most: nat) {
    e < parent && H.ExprOk(e) && PushedSlots(e) <= most
  }

  ghost predicate TermOk(parent: H.Expr, t: H.Term, least: nat, most: nat) {
    OperandOk(parent, t.operand, most) && least <= H.Precedence(t.op)
  }

  /** What the induction over a flat list carries: precedences from least up, operands of bounded need. */
  ghost predicate ListOk(parent: H.Expr, first: H.Expr, rest: seq<H.Term>, least: nat, most: nat) {
    OperandOk(parent, first, most) && least <= 3 && forall i :: 0 <= i < |rest| ==> TermOk(parent, rest[i], least, most)
  }

  lemma PushedSlotsPositive(e: H.Expr)
    ensures PushedSlots(e) >= 1
  {
  }

  lemma TailLengths(op: H.CompareToken)
    ensures |ComparisonTail(op)| == 4
  {
  }

  lemma JoinLength(useAnd: bool, links: seq<H.Link>, trueLabel: nat, falseLabel: nat)
    ensures |Join(useAnd, links, trueLabel, falseLabel)| == 4
  {
  }

  lemma MathLength(op: H.MathToken)
    ensures |DoMathOperation(op)| == 4
  {
  }

  lemma Associate(a: seq<Instr>, b: seq<Instr>, c: seq<Instr>)
    ensures a + b + c == a + (b + c)
  {
  }

  lemma Regroup(f: seq<Instr>, a: seq<Instr>, xb: seq<Instr>, d: seq<Instr>)
    ensures f + (a + xb + d) == f + a + xb + d
  {
  }

  lemma ListCodeSplits(first: H.Expr, rest: seq<H.Term>, n: nat)
    requires rest != []
    ensures var c := H.SplitPoint(rest);
      var left := LowerList(first, rest[..c], n);
      var right := LowerList(rest[c].operand, rest[c + 1..], left.next);
      LowerList(first, rest, n) == Piece(left.code + right.code + DoMathOperation(rest[c].op), right.next)
  {
    var c := H.SplitPoint(rest);
    hide LowerPushed, LowerTerms, H.Precedence, H.SplitPoint, DoMathOperation;
    LoopSplits(rest, LowerPushed(first, n).next);
    var f := LowerPushed(first, n);
    var a := LowerTerms(rest[..c], [], f.next);
    var x := LowerPushed(rest[c].operand, a.next);
    var b := LowerTerms(rest[c + 1..], [], x.next);
    Regroup(f.code, a.code, x.code + b.code, DoMathOperation(rest[c].op));
  }

  lemma MostPositive(parent: H.Expr, e: H.Expr, most: nat)
    requires OperandOk(parent, e, most)
    ensures most >= 1
  {
  }

  lemma PrecedenceBelowThree(op: H.MathToken)
    ensures H.Precedence(op) < 3
  {
  }

  lemma ListOkSplits(parent: H.Expr, first: H.Expr, rest: seq<H.Term>, least: nat, most: nat)
    requires rest != [] && ListOk(parent, first, rest, least, most)
    ensures var c := H.SplitPoint(rest);
      && ListOk(parent, first, rest[..c], least, most)
      && least < 3 && most >= 1 && ListOk(parent, rest[c].operand, rest[c + 1..], least + 1, most)
  {
    hide OperandOk, H.Precedence, H.SplitPoint;
    var c := H.SplitPoint(rest);
    MostPositive(parent, first, most);
    PrecedenceBelowThree(rest[c].op);
    assert TermOk(parent, rest[c], least, most);
    var after := rest[c + 1..];
    forall i | 0 <= i < |after|
      ensures TermOk(parent, after[i], least + 1, most)
    {
      assert TermOk(parent, rest[c + 1 + i], least, most);
    }
  }

  lemma ListOfOne(w: World, locals: map<nat, Word>, trace: seq<Event>, parent: H.Expr, first: H.Expr, n: nat)
    requires first < parent
    ensures LowerList(first, [], n).code == LowerPushed(first, n).code
    ensures H.EvalMath(w, locals, trace, parent, first, []) == H.Eval(w, locals, trace, first)
  {
    hide LowerPushed, H.Eval;
  }

  lemma {:induction false} SimMath(prog: seq<Instr>, w: World, m: Machine, parent: H.Expr, first: H.Expr,
                                   rest: seq<H.Term>, n: nat, least: nat, most: nat, low: nat, high: nat)
    returns (k: nat)
    requires first < parent && H.TermsBelow(rest, parent)
    requires ListOk(parent, first, rest, least, most)
    requires Room(m, 3 - least + most, low, high)
    requires Ready(prog, m, LowerList(first, rest, n).code)
    ensures Inside(prog, w, m, k, low, high)
    ensures JoinedTo(m, Run(prog, w, m, k), m.pc + |LowerList(first, rest, n).code|, m.stack,
                     H.EvalMath(w, m.locals, m.trace, parent, first, rest))
    decreases parent, 1, |rest|
  {
    hide Step, Run, Inside, At, UniqueLabels, H.Eval, H.EvalMath, H.MathMeaning, LowerPushed, PushedSlots, H.ExprOk,
      H.Precedence, H.SplitPoint, LowerList, LowerTerms, DoMathOperation, JoinedTo;
    if rest == [] {
      ListOfOne(w, m.locals, m.trace, parent, first, n);
      k := SimPushed(prog, w, m, first, n, low, high);
    } else {
      var c := H.SplitPoint(rest);
      ListCodeSplits(first, rest, n);
      ListOkSplits(parent, first, rest, least, most);
      MathLength(rest[c].op);
      EvalMathSplit(w, m.locals, m.trace, parent, first, rest);
      var left := LowerList(first, rest[..c], n);
      var right := LowerList(rest[c].operand, rest[c + 1..], left.next);
      Associate(left.code, right.code, DoMathOperation(rest[c].op));
      k := SimMathSplit(prog, w, m, parent, first, rest[..c], rest[c], rest[c + 1..], n, least, most, low, high);
    }
  }

  lemma EvalMathSplit(w: World, locals: map<nat, Word>, trace: seq<Event>, parent: H.Expr, first: H.Expr,
                      rest: seq<H.Term>)
    requires rest != [] && first < parent && H.TermsBelow(rest, parent)
    ensures var c := H.SplitPoint(rest);
      var l := H.EvalMath(w, locals, trace, parent, first, rest[..c]);
      var r := H.EvalMath(w, locals, l.trace, parent, rest[c].operand, rest[c + 1..]);
      H.EvalMath(w, locals, trace, parent, first, rest) ==
        if l.Fault? then l else if r.Fault? then r else H.Combine(rest[c].op, l.v, r)
  {
    hide H.SplitPoint, H.Combine, H.Eval;
  }

  /** With the left value on the stack: the right half of a list, then the operator. */
  lemma {:induction false} SimMathRight(prog: seq<Instr>, w: World, m: Machine, rest: seq<Word>, l: Word,
                                        parent: H.Expr, t: H.Term, after: seq<H.Term>, n: nat, least: nat, most: nat,
                                        low: nat, high: nat)
    returns (k: nat)
    requires least < 3 && ListOk(parent, t.operand, after, least + 1, most)
    requires t.operand < parent && H.TermsBelow(after, parent)
    requires m.stack == rest + [l] && low <= |rest| && |rest| + 3 - least + most <= high && most >= 1
    requires Ready(prog, m, LowerList(t.operand, after, n).code + DoMathOperation(t.op))
    ensures Inside(prog, w, m, k, low, high)
    ensures var r := H.EvalMath(w, m.locals, m.trace, parent, t.operand, after);
      JoinedTo(m, Run(prog, w, m, k), m.pc + |LowerList(t.operand, after, n).code| + 4, rest,
               if r.Fault? then r else H.Combine(t.op, l, r))
    decreases parent, 1, |after| + 1, 0
  {
    var right := LowerList(t.operand, after, n);
    hide Step, Run, Inside, At, UniqueLabels, H.MathMeaning, LowerList, ListOk, DoMathOperation, H.EvalMath;
    AtSplit(prog, m.pc, right.code, DoMathOperation(t.op));
    k := SimMath(prog, w, m, parent, t.operand, after, n, least + 1, most, low, high);
    var r := H.EvalMath(w, m.locals, m.trace, parent, t.operand, after);
    if r.Val? {
      var j := RunMath(prog, w, Run(prog, w, m, k), t.op, rest, l, r.v, low, high);
      Sequence(prog, w, m, k, j, low, high);
      k := k + j;
    }
  }

  lemma {:induction false} SimMathSplit(prog: seq<Instr>, w: World, m: Machine, parent: H.Expr, first: H.Expr,
                                        before: seq<H.Term>, t: H.Term, after: seq<H.Term>, n: nat, least: nat,
                                        most: nat, low: nat, high: nat)
    returns (k: nat)
    requires first < parent && H.TermsBelow(before, parent) && t.operand < parent && H.TermsBelow(after, parent)
    requires ListOk(parent, first, before, least, most)
    requires least < 3 && most >= 1 && ListOk(parent, t.operand, after, least + 1, most)
    requires Room(m, 3 - least + most, low, high)
    requires var left := LowerList(first, before, n);
      Ready(prog, m, left.code + (LowerList(t.operand, after, left.next).code + DoMathOperation(t.op)))
    ensures Inside(prog, w, m, k, low, high)
    ensures var left := LowerList(first, before, n);
      var l := H.EvalMath(w, m.locals, m.trace, parent, first, before);
      var r := H.EvalMath(w, m.locals, l.trace, parent, t.operand, after);
      JoinedTo(m, Run(prog, w, m, k), m.pc + |left.code| + |LowerList(t.operand, after, left.next).code| + 4, m.stack,
               if l.Fault? then l else if r.Fault? then r else H.Combine(t.op, l.v, r))
    decreases parent, 1, |before| + |after| + 1, 1
  {
    hide Step, Run, Inside, At, UniqueLabels, H.Combine, LowerList, ListOk, DoMathOperation, H.EvalMath;
    var left := LowerList(first, before, n);
    var right := LowerList(t.operand, after, left.next);
    AtSplit(prog, m.pc, left.code, right.code + DoMathOperation(t.op));
    k := SimMath(prog, w, m, parent, first, before, n, least, most, low, high);
    var l := H.EvalMath(w, m.locals, m.trace, parent, first, before);
    if l.Val? {
      var j := SimMathRight(prog, w, Run(prog, w, m, k), m.stack, l.v, parent, t, after, left.next, least, most, low,
                            high);
      Sequence(prog, w, m, k, j, low, high);
      k := k + j;
    }
  }

  /** The code of a comparison has run: its truth value is in the first temporary. */
  ghost predicate Tested(m: Machine, m': Machine, p: nat, rest: seq<Word>, r: H.Value) {
    if r.Val? then Reached(m, m', p, rest, r.trace) && m'.t1 == r.v else FaultedFrom(m, m', r.trace)
  }

  ghost predicate ComparisonFits(parent: H.Expr, c: H.Comparison, most: nat) {
    OperandOk(parent, c.lhs, most) && OperandOk(parent, c.rhs, most)
  }

  lemma {:induction false} SimComparison(prog: seq<Instr>, w: World, m: Machine, parent: H.Expr, c: H.Comparison,
                                         n: nat, most: nat, low: nat, high: nat)
    returns (k: nat)
    requires ComparisonFits(parent, c, most) && Room(m, 1 + most, low, high)
    requires Ready(prog, m, LowerComparison(c, n).code)
    ensures Inside(prog, w, m, k, low, high)
    ensures Tested(m, Run(prog, w, m, k), m.pc + |LowerComparison(c, n).code|, m.stack,
                   H.EvalComparison(w, m.locals, m.trace, parent, c))
    decreases parent, 1, 0
  {
    hide Step, Run, Inside, At, UniqueLabels, LowerPushed, PushedSlots, H.CompareMeaning, H.Eval, H.ExprOk,
        ComparisonTail;
    PushedSlotsPositive(c.lhs);
    TailLengths(c.op);
    var left := LowerPushed(c.lhs, n);
    var right := LowerPushed(c.rhs, left.next);
    Associate(left.code, right.code, ComparisonTail(c.op));
    AtSplit(prog, m.pc, left.code, right.code + ComparisonTail(c.op));
    k := SimPushed(prog, w, m, c.lhs, n, low, high);
    var l := H.Eval(w, m.locals, m.trace, c.lhs);
    if l.Val? {
      var j := SimComparisonRight(prog, w, Run(prog, w, m, k), m.stack, l.v, parent, c, left.next, most, low, high);
      Sequence(prog, w, m, k, j, low, high);
      k := k + j;
    }
  }

  /** With the left operand on the stack: the right one, then the test. */
  lemma {:induction false} SimComparisonRight(prog: seq<Instr>, w: World, m: Machine, rest: seq<Word>, l: Word,
                                              parent: H.Expr, c: H.Comparison, n: nat, most: nat, low: nat, high: nat)
    returns (k: nat)
    requires ComparisonFits(parent, c, most)
    requires m.stack == rest + [l] && low <= |rest| && |rest| + 1 + most <= high
    requires Ready(prog, m, LowerPushed(c.rhs, n).code + ComparisonTail(c.op))
    ensures Inside(prog, w, m, k, low, high)
    ensures var r := H.Eval(w, m.locals, m.trace, c.rhs);
      Tested(m, Run(prog, w, m, k), m.pc + |LowerPushed(c.rhs, n).code| + 4, rest,
             if r.Fault? then r else H.Val(FromBool(H.CompareMeaning(c.op, l, r.v)), r.trace))
    decreases parent, 0, 0
  {
    hide Step, Run, Inside, At, UniqueLabels, LowerPushed, PushedSlots, H.CompareMeaning, H.Eval, H.ExprOk,
        ComparisonTail;
    PushedSlotsPositive(c.rhs);
    var right := LowerPushed(c.rhs, n);
    AtSplit(prog, m.pc, right.code, ComparisonTail(c.op));
    k := SimPushed(prog, w, m, c.rhs, n, low, high);
    var r := H.Eval(w, m.locals, m.trace, c.rhs);
    if r.Val? {
      var j := RunComparison(prog, w, Run(prog, w, m, k), c.op, rest, l, r.v, low, high);
      Sequence(prog, w, m, k, j, low, high);
      k := k + j;
    }
  }

  ghost predicate LinksFit(parent: H.Expr, links: seq<H.Link>, most: nat) {
    forall i :: 0 <= i < |links| ==> ComparisonFits(parent, links[i].comparison, most)
  }

  lemma ComparisonIsTruth(w: World, locals: map<nat, Word>, trace: seq<Event>, parent: H.Expr, c: H.Comparison)
    requires H.ComparisonBelow(c, parent)
    ensures var r := H.EvalComparison(w, locals, trace, parent, c); r.Val? ==> r.v == FromBool(r.v != 0)
  {
    hide H.Eval, H.CompareMeaning;
  }

  /** The code of a chain from comparison c on, up to the common tail. */
  function LowerChain(c: H.Comparison, useAnd: bool, links: seq<H.Link>, n: nat, trueLabel: nat,
                      falseLabel: nat): seq<Instr> {
    var x := LowerComparison(c, n);
    x.code + (Join(useAnd, links, trueLabel, falseLabel) + LowerLinks(links, x.next, trueLabel, falseLabel).code)
  }

  /** Every path through a chain meets at its end with the chain's value in the first temporary. */
  lemma {:induction false} SimChain(prog: seq<Instr>, w: World, m: Machine, rest: seq<Word>, parent: H.Expr,
                                    c: H.Comparison, useAnd: bool, links: seq<H.Link>, n: nat, q: nat,
                                    trueLabel: nat, falseLabel: nat, doneLabel: nat, most: nat, low: nat, high: nat)
    returns (k: nat)
    requires H.ComparisonBelow(c, parent) && H.LinksBelow(links, parent)
    requires ComparisonFits(parent, c, most) && LinksFit(parent, links, most) && most >= 1
    requires m.stack == rest + [FromBool(useAnd)] && low <= |rest| && |rest| + 2 + most <= high
    requires Ready(prog, m, LowerChain(c, useAnd, links, n, trueLabel, falseLabel))
    requires q == m.pc + |LowerChain(c, useAnd, links, n, trueLabel, falseLabel)|
    requires At(prog, q, ConditionTail(trueLabel, falseLabel, doneLabel))
    ensures Inside(prog, w, m, k, low, high)
    ensures Tested(m, Run(prog, w, m, k), q + 6, rest, H.EvalChain(w, m.locals, m.trace, parent, c, links))
    decreases parent, 1, |links| + 1, 1
  {
    hide Step, Run, Inside, At, UniqueLabels, LowerComparison, ComparisonFits, ConditionTail, H.EvalComparison, Join,
      LowerLinks, FromBool, LinksFit, H.LinksBelow, H.ComparisonBelow;
    ComparisonIsTruth(w, m.locals, m.trace, parent, c);
    JoinLength(useAnd, links, trueLabel, falseLabel);
    var x := LowerComparison(c, n);
    AtSplit(prog, m.pc, x.code, Join(useAnd, links, trueLabel, falseLabel)
            + LowerLinks(links, x.next, trueLabel, falseLabel).code);
    k := SimComparison(prog, w, m, parent, c, n, most, low, high);
    var v := H.EvalComparison(w, m.locals, m.trace, parent, c);
    if v.Val? {
      var j := SimAfterComparison(prog, w, Run(prog, w, m, k), rest, parent, v.v != 0, useAnd, links, x.next, q,
                                  trueLabel, falseLabel, doneLabel, most, low, high);
      Sequence(prog, w, m, k, j, low, high);
      k := k + j;
    }
  }

  /** The same from the end of a comparison whose truth value is v. */
  lemma {:induction false} SimAfterComparison(prog: seq<Instr>, w: World, m: Machine, rest: seq<Word>, parent: H.Expr,
                                              v: bool, useAnd: bool, links: seq<H.Link>, n: nat, q: nat,
                                              trueLabel: nat, falseLabel: nat, doneLabel: nat, most: nat,
                                              low: nat, high: nat)
    returns (k: nat)
    requires LinksFit(parent, links, most) && H.LinksBelow(links, parent) && most >= 1
    requires m.stack == rest + [FromBool(useAnd)] && m.t1 == FromBool(v) && low <= |rest| && |rest| + 2 + most <= high
    requires Ready(prog, m, Join(useAnd, links, trueLabel, falseLabel) + LowerLinks(links, n, trueLabel,
        falseLabel).code)
    requires q == m.pc + 4 + |LowerLinks(links, n, trueLabel, falseLabel).code|
    requires At(prog, q, ConditionTail(trueLabel, falseLabel, doneLabel))
    ensures Inside(prog, w, m, k, low, high)
    ensures Tested(m, Run(prog, w, m, k), q + 6, rest,
                   if links == [] || NextIsOr(links) == v then H.Val(FromBool(v), m.trace)
                   else H.EvalChain(w, m.locals, m.trace, parent, links[0].comparison, links[1..]))
    decreases parent, 1, |links| + 1, 0
  {
    hide Step, Run, Inside, At, UniqueLabels, ConditionTail, Join, LowerLinks, FromBool, LinksFit, H.LinksBelow,
      H.EvalChain, Defines, NextIsOr;
    JoinLength(useAnd, links, trueLabel, falseLabel);
    TailDefines(prog, q, trueLabel, falseLabel, doneLabel);
    AtSplit(prog, m.pc, Join(useAnd, links, trueLabel, falseLabel), LowerLinks(links, n, trueLabel, falseLabel).code);
    k := RunJoin(prog, w, m, rest, useAnd, links, v, trueLabel, falseLabel, q + 1, q + 3, low, high);
    var m1 := Run(prog, w, m, k);
    var j: nat;
    if NextIsOr(links) == v {
      j := SimDecided(prog, w, m1, v, q, trueLabel, falseLabel, doneLabel, low, high);
    } else {
      j := SimUndecided(prog, w, m1, rest, parent, v, links, n, q, trueLabel, falseLabel, doneLabel, most, low, high);
    }
    Sequence(prog, w, m, k, j, low, high);
    k := k + j;
  }

  lemma TailDefines(prog: seq<Instr>, q: nat, trueLabel: nat, falseLabel: nat, doneLabel: nat)
    requires At(prog, q, ConditionTail(trueLabel, falseLabel, doneLabel))
    ensures Defines(prog, q + 1, trueLabel) && Defines(prog, q + 3, falseLabel)
  {
    var code := ConditionTail(trueLabel, falseLabel, doneLabel);
    AtIndex(prog, q, code);
    assert prog[q + 1] == code[1] && prog[q + 3] == code[3];
  }

  /** The comparison has decided the chain: out by the true or the false label. */
  lemma SimDecided(prog: seq<Instr>, w: World, m: Machine, v: bool, q: nat, trueLabel: nat, falseLabel: nat,
                   doneLabel: nat, low: nat, high: nat)
    returns (k: nat)
    requires UniqueLabels(prog) && At(prog, q, ConditionTail(trueLabel, falseLabel, doneLabel))
    requires m.status.Running? && m.Valid() && m.t1 == FromBool(v) && m.pc == if v then q + 1 else q + 3
    requires low <= |m.stack| <= high
    ensures Inside(prog, w, m, k, low, high)
    ensures Tested(m, Run(prog, w, m, k), q + 6, m.stack, H.Val(FromBool(v), m.trace))
  {
    hide Step, Run, Inside, At, UniqueLabels, ConditionTail;
    if v {
      k := RunTrueExit(prog, w, m, q, trueLabel, falseLabel, doneLabel, low, high);
    } else {
      k := RunFalseExit(prog, w, m, q, trueLabel, falseLabel, doneLabel, low, high);
    }
  }

  lemma LinksAreChain(links: seq<H.Link>, n: nat, trueLabel: nat, falseLabel: nat)
    requires links != []
    ensures LowerLinks(links, n, trueLabel, falseLabel).code
      == LowerChain(links[0].comparison, links[0].chain.BoolAnd?, links[1..], n, trueLabel, falseLabel)
  {
    hide LowerComparison, Join;
    var c := LowerComparison(links[0].comparison, n);
    Associate(c.code, Join(links[0].chain.BoolAnd?, links[1..], trueLabel, falseLabel),
              LowerLinks(links[1..], c.next, trueLabel, falseLabel).code);
  }

  /** Falling through the end of a chain whose last comparison was true. */
  lemma RunFallThrough(prog: seq<Instr>, w: World, m: Machine, rest: seq<Word>, q: nat, trueLabel: nat,
                       falseLabel: nat, doneLabel: nat, low: nat, high: nat)
    returns (k: nat)
    requires UniqueLabels(prog) && At(prog, q, ConditionTail(trueLabel, falseLabel, doneLabel))
    requires m.status.Running? && m.Valid() && m.pc == q && m.stack == rest + [1]
    requires low <= |rest| < high
    ensures Inside(prog, w, m, k, low, high)
    ensures Run(prog, w, m, k) == m.(pc := q + 6, t1 := 1, stack := rest)
  {
    hide Step, UniqueLabels, At;
    TailPops(prog, q, trueLabel, falseLabel, doneLabel);
    k := 0;
    StepPopFirst(prog, w, m, rest, 1);
    Extend(prog, w, m, k, low, high);
    k := k + 1;
    var j := RunTrueExit(prog, w, Run(prog, w, m, k), q, trueLabel, falseLabel, doneLabel, low, high);
    Sequence(prog, w, m, k, j, low, high);
    k := k + j;
  }

  lemma TailPops(prog: seq<Instr>, q: nat, trueLabel: nat, falseLabel: nat, doneLabel: nat)
    requires At(prog, q, ConditionTail(trueLabel, falseLabel, doneLabel))
    ensures q < |prog| && prog[q] == Pop(T1)
  {
    var code := ConditionTail(trueLabel, falseLabel, doneLabel);
    AtIndex(prog, q, code);
    assert prog[q + 0] == code[0];
  }

  /** The comparison has not decided the chain: on to the next one, or out at the end. */
  lemma {:induction false} SimUndecided(prog: seq<Instr>, w: World, m: Machine, rest: seq<Word>, parent: H.Expr,
                                        v: bool, links: seq<H.Link>, n: nat, q: nat, trueLabel: nat,
                                        falseLabel: nat, doneLabel: nat, most: nat, low: nat, high: nat)
    returns (k: nat)
    requires NextIsOr(links) != v
    requires LinksFit(parent, links, most) && H.LinksBelow(links, parent) && most >= 1
    requires m.stack == rest + [FromBool(v)] && low <= |rest| && |rest| + 2 + most <= high
    requires Ready(prog, m, LowerLinks(links, n, trueLabel, falseLabel).code)
    requires q == m.pc + |LowerLinks(links, n, trueLabel, falseLabel).code|
    requires At(prog, q, ConditionTail(trueLabel, falseLabel, doneLabel))
    ensures Inside(prog, w, m, k, low, high)
    ensures Tested(m, Run(prog, w, m, k), q + 6, rest,
                   if links == [] then H.Val(FromBool(v), m.trace)
                   else H.EvalChain(w, m.locals, m.trace, parent, links[0].comparison, links[1..]))
    decreases parent, 1, |links|, 2
  {
    hide Step, Run, Inside, At, UniqueLabels, ConditionTail, H.EvalChain, LowerChain, LowerComparison, Join, OperandOk;
    if links == [] {
      k := RunFallThrough(prog, w, m, rest, q, trueLabel, falseLabel, doneLabel, low, high);
    } else {
      LinksAreChain(links, n, trueLabel, falseLabel);
      k := SimChain(prog, w, m, rest, parent, links[0].comparison, v, links[1..], n, q,
                    trueLabel, falseLabel, doneLabel, most, low, high);
    }
  }

  // ----- Calls -----

  ghost predicate ArgumentsFit(parent: H.Expr, es: seq<H.Expr>, most: nat) {
    forall i :: 0 <= i < |es| ==> OperandOk(parent, es[i], most)
  }

  /** The complex arguments have been evaluated onto the stack, or one of them faulted. */
  ghost predicate Collected(m: Machine, m': Machine, p: nat, es: seq<H.Expr>, r: H.Values)
    requires r.Vals? ==> |r.vs| == |es|
  {
    if r.Vals? then Reached(m, m', p, m.stack + Picked(es, r.vs, true, 0), r.trace) else FaultedFrom(m, m', r.trace)
  }

  lemma {:induction false} SimComplexArguments(prog: seq<Instr>, w: World, m: Machine, parent: H.Expr,
                                               es: seq<H.Expr>, n: nat, most: nat, low: nat, high: nat)
    returns (k: nat)
    requires H.AllBelow(es, parent) && ArgumentsFit(parent, es, most) && Room(m, |es| + most, low, high)
    requires Ready(prog, m, LowerComplexArguments(es, n).code)
    ensures Inside(prog, w, m, k, low, high)
    ensures Collected(m, Run(prog, w, m, k), m.pc + |LowerComplexArguments(es, n).code|, es,
                      H.EvalArguments(w, m.locals, m.trace, parent, es, true))
    decreases parent, 1, |es|
  {
    hide Step, At, UniqueLabels, H.IsComplex, LowerPushed, H.Eval, OperandOk;
    if es == [] {
      k := 0;
      assert m.stack + [] == m.stack;
    } else {
      var i := |es| - 1;
      if H.IsComplex(es[i]) {
        k := SimComplexStep(prog, w, m, parent, es, n, most, low, high);
      } else {
        SkippedArgument(w, m.locals, m.trace, parent, es, n, m.stack);
        k := SimComplexArguments(prog, w, m, parent, es[..i], n, most, low, high);
      }
    }
  }

  /** A last argument that is not complex is not evaluated yet. */
  lemma {:induction false} SkippedArgument(w: World, locals: map<nat, Word>, trace: seq<Event>, parent: H.Expr,
                                           es: seq<H.Expr>, n: nat, stack: seq<Word>)
    requires es != [] && !H.IsComplex(es[|es| - 1]) && H.AllBelow(es, parent)
    ensures LowerComplexArguments(es, n).code == LowerComplexArguments(es[..|es| - 1], n).code
    ensures var before := H.EvalArguments(w, locals, trace, parent, es[..|es| - 1], true);
      var r := H.EvalArguments(w, locals, trace, parent, es, true);
      && (before.ArgumentFault? ==> r == before)
      && (before.Vals? ==>
            && r.Vals? && r.trace == before.trace
            && Picked(es, r.vs, true, 0) == Picked(es[..|es| - 1], before.vs, true, 0))
  {
    hide LowerPushed, H.Eval, H.IsComplex;
    var before := H.EvalArguments(w, locals, trace, parent, es[..|es| - 1], true);
    if before.Vals? {
      assert (before.vs + [0])[..|es| - 1] == before.vs;
    }
  }

  /** A complex last argument: its code and its value come first. */
  lemma ComplexUnfold(w: World, locals: map<nat, Word>, trace: seq<Event>, parent: H.Expr, es: seq<H.Expr>, n: nat)
    requires es != [] && H.IsComplex(es[|es| - 1]) && H.AllBelow(es, parent)
    ensures var x := LowerPushed(es[|es| - 1], n);
      LowerComplexArguments(es, n).code == x.code + LowerComplexArguments(es[..|es| - 1], x.next).code
    ensures var v := H.Eval(w, locals, trace, es[|es| - 1]);
      var before := H.EvalArguments(w, locals, v.trace, parent, es[..|es| - 1], true);
      H.EvalArguments(w, locals, trace, parent, es, true) ==
        if v.Fault? then H.ArgumentFault(v.trace)
        else if before.ArgumentFault? then before else H.Vals(before.vs + [v.v], before.trace)
  {
    hide LowerPushed, H.Eval, H.IsComplex;
  }

  lemma {:induction false} PickedUnfold(es: seq<H.Expr>, vs: seq<Word>, v: Word, stack: seq<Word>)
    requires es != [] && H.IsComplex(es[|es| - 1]) && |vs| == |es| - 1
    ensures stack + [v] + Picked(es[..|es| - 1], vs, true, 0) == stack + Picked(es, vs + [v], true, 0)
  {
    hide H.IsComplex;
    var i := |es| - 1;
    var mine, below := PickedLast(es, vs + [v], true, 0), Picked(es[..i], vs, true, 0);
    assert (vs + [v])[..i] == vs;
    assert stack + [v] + below == stack + (mine + below);
  }

  lemma {:induction false} SimComplexStep(prog: seq<Instr>, w: World, m: Machine, parent: H.Expr,
                                          es: seq<H.Expr>, n: nat, most: nat, low: nat, high: nat)
    returns (k: nat)
    requires es != [] && H.IsComplex(es[|es| - 1])
    requires H.AllBelow(es, parent) && ArgumentsFit(parent, es, most) && Room(m, |es| + most, low, high)
    requires Ready(prog, m, LowerComplexArguments(es, n).code)
    ensures Inside(prog, w, m, k, low, high)
    ensures Collected(m, Run(prog, w, m, k), m.pc + |LowerComplexArguments(es, n).code|, es,
                      H.EvalArguments(w, m.locals, m.trace, parent, es, true))
    decreases parent, 1, |es|, 0
  {
    hide Step, Run, Inside, At, UniqueLabels, H.IsComplex, LowerPushed, PushedSlots, H.Eval, H.ExprOk,
      H.EvalArguments, LowerComplexArguments, Picked;
    ComplexUnfold(w, m.locals, m.trace, parent, es, n);
    var i := |es| - 1;
    assert OperandOk(parent, es[i], most);
    var x := LowerPushed(es[i], n);
    AtSplit(prog, m.pc, x.code, LowerComplexArguments(es[..i], x.next).code);
    k := SimPushed(prog, w, m, es[i], n, low, high);
    var v := H.Eval(w, m.locals, m.trace, es[i]);
    if v.Val? {
      var j := SimComplexArguments(prog, w, Run(prog, w, m, k), parent, es[..i], x.next, most, low, high);
      Sequence(prog, w, m, k, j, low, high);
      k := k + j;
      var before := H.EvalArguments(w, m.locals, v.trace, parent, es[..i], true);
      if before.Vals? {
        PickedUnfold(es, before.vs, v.v, m.stack);
      }
    }
  }

  lemma ArgumentSlotsBound(es: seq<H.Expr>)
    ensures forall i :: 0 <= i < |es| ==> PushedSlots(es[i]) <= ArgumentSlots(es)
    ensures ArgumentSlots(es) >= 1
  {
    hide PushedSlots;
    if es != [] {
      ArgumentSlotsBound(es[..|es| - 1]);
      forall i | 0 <= i < |es| - 1
        ensures PushedSlots(es[i]) <= ArgumentSlots(es)
      {
        assert es[..|es| - 1][i] == es[i];
      }
    }
  }

  lemma CallFits(e: H.Expr)
    requires e.Call? && forall i :: 0 <= i < |e.arguments| ==> H.ExprOk(e.arguments[i])
    ensures H.AllBelow(e.arguments, e) && ArgumentsFit(e, e.arguments, ArgumentSlots(e.arguments))
  {
    hide PushedSlots, H.IsComplex, H.ExprOk;
    ArgumentSlotsBound(e.arguments);
  }

  // ----- The arguments that are not complex -----

  /** The argument registers an expression spares are as they were. */
  ghost predicate Spared(e: H.Expr, slots: seq<Word>, slots': seq<Word>) {
    && |slots| == |slots'| == MAX_REGISTER_ARGUMENTS
    && forall j :: 0 <= j < MAX_REGISTER_ARGUMENTS && H.Spares(e, j) ==> slots'[j] == slots[j]
  }

  /** The code of an expression runs within itself, so the registers it spares keep their values. */
  lemma {:induction false} SimWithin(prog: seq<Instr>, w: World, m: Machine, e: H.Expr, n: nat, low: nat, high: nat)
    returns (k: nat)
    requires H.ExprOk(e)
    requires Ready(prog, m, LowerExpr(e, n).code) && Room(m, Slots(e), low, high)
    ensures Inside(prog, w, m, k, low, high)
    ensures var x := LowerExpr(e, n);
      Evaluated(w, m, Run(prog, w, m, k), m.pc + |x.code|, x.operand, H.Eval(w, m.locals, m.trace, e))
    ensures H.Eval(w, m.locals, m.trace, e).Val? ==> Spared(e, m.slots, Run(prog, w, m, k).slots)
    decreases e, 2, 0
  {
    hide Step, Run, Inside, At, UniqueLabels, H.ExprOk, LowerExpr, Slots, H.Eval, Contained, Cut, H.Spares, Keeps, Read;
    var code := LowerExpr(e, n).code;
    ExprContained(prog, m.pc, e, n);
    CutKeeps(prog, m.pc, code);
    k := SimExpr(Cut(prog, m.pc, code), w, m, e, n, low, high);
    RunInside(prog, m.pc, code, w, m, k, low, high);
    if H.Eval(w, m.locals, m.trace, e).Val? {
      forall j | 0 <= j < MAX_REGISTER_ARGUMENTS && H.Spares(e, j)
        ensures Run(prog, w, m, k).slots[j] == m.slots[j]
      {
        ExprKeeps(e, n, j);
        RunInsideKeeps(prog, m.pc, code, w, m, k, j);
      }
    }
  }

  /** An argument has been evaluated and put into its place. */
  ghost predicate Passed(m: Machine, m': Machine, p: nat, e: H.Expr, i: nat, r: H.Value) {
    if r.Fault? then FaultedFrom(m, m', r.trace)
    else
      && Reached(m, m', p, if i < MAX_REGISTER_ARGUMENTS then m.stack else m.stack + [r.v], r.trace)
      && |m.slots| == MAX_REGISTER_ARGUMENTS
      && (i < MAX_REGISTER_ARGUMENTS ==> m'.slots[i] == r.v)
      && forall j :: 0 <= j < MAX_REGISTER_ARGUMENTS && j != i && H.Spares(e, j) ==> m'.slots[j] == m.slots[j]
  }

  lemma {:induction false} SimOther(prog: seq<Instr>, w: World, m: Machine, e: H.Expr, i: nat, total: nat, n: nat,
                                    low: nat, high: nat)
    returns (k: nat)
    requires H.ExprOk(e) && Room(m, PushedSlots(e), low, high)
    requires var x := LowerExpr(e, n); Ready(prog, m, x.code + [Load(T1, x.operand), StoreArgument(i, total)])
    ensures Inside(prog, w, m, k, low, high)
    ensures Passed(m, Run(prog, w, m, k), m.pc + |LowerExpr(e, n).code| + 2, e, i, H.Eval(w, m.locals, m.trace, e))
    decreases e, 2, 1
  {
    hide Step, Run, Inside, At, UniqueLabels, H.ExprOk, LowerExpr, Slots, H.Eval, H.Spares, Load, StoreArgument, Read;
    var x := LowerExpr(e, n);
    AtSplit(prog, m.pc, x.code, [Load(T1, x.operand), StoreArgument(i, total)]);
    k := SimWithin(prog, w, m, e, n, low, high);
    var r := H.Eval(w, m.locals, m.trace, e);
    if r.Val? {
      var j := RunLoadArgument(prog, w, Run(prog, w, m, k), x.operand, r.v, i, total, low, high);
      Sequence(prog, w, m, k, j, low, high);
      k := k + j;
    }
  }

  /** The arguments that are not complex have been passed, or one of them faulted. */
  ghost predicate AllPassed(m: Machine, m': Machine, p: nat, es: seq<H.Expr>, r: H.Values)
    requires r.Vals? ==> |r.vs| == |es|
  {
    if r.ArgumentFault? then FaultedFrom(m, m', r.trace)
    else
      && Reached(m, m', p, m.stack + Picked(es, r.vs, false, MAX_REGISTER_ARGUMENTS), r.trace)
      && Placed(es, r.vs, m.slots, m'.slots)
  }

  lemma {:induction false} SimOthers(prog: seq<Instr>, w: World, m: Machine, parent: H.Expr, es: seq<H.Expr>,
                                     total: nat, n: nat, most: nat, low: nat, high: nat)
    returns (k: nat)
    requires H.AllBelow(es, parent) && ArgumentsFit(parent, es, most) && Room(m, Others(es) + most, low, high)
    requires Ready(prog, m, LowerPlainArguments(es, total, n).code)
    ensures Inside(prog, w, m, k, low, high)
    ensures AllPassed(m, Run(prog, w, m, k), m.pc + |LowerPlainArguments(es, total, n).code|, es,
                      H.EvalArguments(w, m.locals, m.trace, parent, es, false))
    decreases parent, 1, |es|
  {
    hide Step, At, UniqueLabels, H.IsComplex, LowerExpr, H.Eval, OperandOk, Placed, Load, StoreArgument;
    if es == [] {
      k := 0;
      assert m.stack + [] == m.stack;
      PlacedNothing(m.slots);
    } else {
      var i := |es| - 1;
      if H.IsComplex(es[i]) {
        k := SimOthers(prog, w, m, parent, es[..i], total, n, most, low, high);
        OtherSkipped(w, m.locals, m.trace, parent, es, m.slots, Run(prog, w, m, k).slots);
      } else {
        k := SimOtherStep(prog, w, m, parent, es, total, n, most, low, high);
      }
    }
  }

  lemma PlacedNothing(slots: seq<Word>)
    ensures Placed([], [], slots, slots)
  {
  }

  /** A complex last argument is in its place already. */
  lemma {:induction false} OtherSkipped(w: World, locals: map<nat, Word>, trace: seq<Event>, parent: H.Expr,
                                        es: seq<H.Expr>, slots: seq<Word>, slots': seq<Word>)
    requires es != [] && H.IsComplex(es[|es| - 1]) && H.AllBelow(es, parent)
    ensures var before := H.EvalArguments(w, locals, trace, parent, es[..|es| - 1], false);
      var r := H.EvalArguments(w, locals, trace, parent, es, false);
      && (before.ArgumentFault? ==> r == before)
      && (before.Vals? ==>
            && r.Vals? && r.trace == before.trace
            && Picked(es, r.vs, false, MAX_REGISTER_ARGUMENTS)
                == Picked(es[..|es| - 1], before.vs, false, MAX_REGISTER_ARGUMENTS)
            && (Placed(es[..|es| - 1], before.vs, slots, slots') ==> Placed(es, r.vs, slots, slots')))
  {
    hide H.Eval, H.IsComplex, H.Spares, Placed, Picked;
    var i := |es| - 1;
    var before := H.EvalArguments(w, locals, trace, parent, es[..i], false);
    if before.Vals? {
      assert (before.vs + [0])[..i] == before.vs;
      PickedSkips(es, before.vs + [0]);
      if Placed(es[..i], before.vs, slots, slots') {
        PlacedSkips(es, before.vs, slots, slots');
      }
    }
  }

  lemma PickedSkips(es: seq<H.Expr>, vs: seq<Word>)
    requires |es| == |vs| && es != [] && H.IsComplex(es[|es| - 1])
    ensures Picked(es, vs, false, MAX_REGISTER_ARGUMENTS)
      == Picked(es[..|es| - 1], vs[..|es| - 1], false, MAX_REGISTER_ARGUMENTS)
  {
    hide H.IsComplex;
  }

  lemma PlacedSkips(es: seq<H.Expr>, vs: seq<Word>, slots: seq<Word>, slots': seq<Word>)
    requires es != [] && |vs| == |es| - 1 && H.IsComplex(es[|es| - 1]) && Placed(es[..|es| - 1], vs, slots, slots')
    ensures Placed(es, vs + [0], slots, slots')
  {
    hide H.IsComplex, H.Spares;
    var i := |es| - 1;
    forall j | 0 <= j < MAX_REGISTER_ARGUMENTS
      ensures PlacedAt(es, vs + [0], slots, slots', j)
    {
      assert PlacedAt(es[..i], vs, slots, slots', j);
      SparedPrefix(es, if j < i then j else i, j);
    }
  }

  lemma SparedPrefix(es: seq<H.Expr>, c: nat, j: nat)
    requires es != [] && c < |es|
    ensures SparedBelow(es[..|es| - 1], c, j) <==> SparedBelow(es, c, j)
    ensures SparedBelow(es, |es|, j) <==>
      SparedBelow(es, |es| - 1, j) && (H.IsComplex(es[|es| - 1]) || H.Spares(es[|es| - 1], j))
  {
    hide H.IsComplex, H.Spares;
    var short := es[..|es| - 1];
    assert forall i :: 0 <= i < c ==> short[i] == es[i];
  }

  /** An argument passed, then those before it. */
  lemma PlacedStep(es: seq<H.Expr>, vs: seq<Word>, v: Word, slots: seq<Word>, slots1: seq<Word>, slots': seq<Word>)
    requires es != [] && |vs| == |es| - 1 && !H.IsComplex(es[|es| - 1])
    requires |slots| == |slots1| == |slots'| == MAX_REGISTER_ARGUMENTS
    requires |es| - 1 < MAX_REGISTER_ARGUMENTS ==> slots1[|es| - 1] == v
    requires forall j :: 0 <= j < MAX_REGISTER_ARGUMENTS && j != |es| - 1 && H.Spares(es[|es| - 1], j) ==>
      slots1[j] == slots[j]
    requires Placed(es[..|es| - 1], vs, slots1, slots')
    ensures Placed(es, vs + [v], slots, slots')
  {
    hide H.IsComplex, H.Spares;
    var i := |es| - 1;
    forall j | 0 <= j < MAX_REGISTER_ARGUMENTS
      ensures PlacedAt(es, vs + [v], slots, slots', j)
    {
      assert PlacedAt(es[..i], vs, slots1, slots', j);
      SparedPrefix(es, if j < i then j else i, j);
    }
  }

  /** The last argument, not complex: its code and its value come first. */
  lemma {:induction false} OtherUnfold(w: World, locals: map<nat, Word>, trace: seq<Event>, parent: H.Expr,
                                       es: seq<H.Expr>, total: nat, n: nat)
    requires es != [] && !H.IsComplex(es[|es| - 1]) && H.AllBelow(es, parent)
    ensures var x := LowerExpr(es[|es| - 1], n);
      LowerPlainArguments(es, total, n).code == x.code + [Load(T1, x.operand), StoreArgument(|es| - 1, total)]
        + LowerPlainArguments(es[..|es| - 1], total, x.next).code
    ensures var v := H.Eval(w, locals, trace, es[|es| - 1]);
      var before := H.EvalArguments(w, locals, v.trace, parent, es[..|es| - 1], false);
      H.EvalArguments(w, locals, trace, parent, es, false) ==
        if v.Fault? then H.ArgumentFault(v.trace)
        else if before.ArgumentFault? then before else H.Vals(before.vs + [v.v], before.trace)
  {
    hide LowerExpr, H.Eval, H.IsComplex;
  }

  lemma {:induction false} OthersUnfold(es: seq<H.Expr>, vs: seq<Word>, v: Word, stack: seq<Word>)
    requires es != [] && !H.IsComplex(es[|es| - 1]) && |vs| == |es| - 1
    ensures Others(es) == Others(es[..|es| - 1]) + 1
    ensures (if |es| - 1 < MAX_REGISTER_ARGUMENTS then stack else stack + [v])
        + Picked(es[..|es| - 1], vs, false, MAX_REGISTER_ARGUMENTS)
      == stack + Picked(es, vs + [v], false, MAX_REGISTER_ARGUMENTS)
  {
    hide H.IsComplex;
    var i := |es| - 1;
    var mine := PickedLast(es, vs + [v], false, MAX_REGISTER_ARGUMENTS);
    var below := Picked(es[..i], vs, false, MAX_REGISTER_ARGUMENTS);
    assert (vs + [v])[..i] == vs;
    assert stack + mine + below == stack + (mine + below);
  }

  lemma {:induction false} SimOtherStep(prog: seq<Instr>, w: World, m: Machine, parent: H.Expr, es: seq<H.Expr>,
                                        total: nat, n: nat, most: nat, low: nat, high: nat)
    returns (k: nat)
    requires es != [] && !H.IsComplex(es[|es| - 1])
    requires H.AllBelow(es, parent) && ArgumentsFit(parent, es, most) && Room(m, Others(es) + most, low, high)
    requires Ready(prog, m, LowerPlainArguments(es, total, n).code)
    ensures Inside(prog, w, m, k, low, high)
    ensures AllPassed(m, Run(prog, w, m, k), m.pc + |LowerPlainArguments(es, total, n).code|, es,
                      H.EvalArguments(w, m.locals, m.trace, parent, es, false))
    decreases parent, 1, |es|, 0
  {
    hide Step, Run, Inside, At, UniqueLabels, H.IsComplex, LowerExpr, H.Eval, H.ExprOk, PushedSlots, Placed, Load,
      StoreArgument, H.EvalArguments, LowerPlainArguments, Picked, Others, H.Spares;
    var i := |es| - 1;
    OtherUnfold(w, m.locals, m.trace, parent, es, total, n);
    assert OperandOk(parent, es[i], most);
    OthersUnfold(es, seq(i, j => 0), 0, m.stack);
    var x := LowerExpr(es[i], n);
    AtSplit(prog, m.pc, x.code + [Load(T1, x.operand), StoreArgument(i, total)],
            LowerPlainArguments(es[..i], total, x.next).code);
    k := SimOther(prog, w, m, es[i], i, total, n, low, high);
    var v := H.Eval(w, m.locals, m.trace, es[i]);
    if v.Val? {
      var m1 := Run(prog, w, m, k);
      var j := SimOthers(prog, w, m1, parent, es[..i], total, x.next, most, low, high);
      Sequence(prog, w, m, k, j, low, high);
      k := k + j;
      var before := H.EvalArguments(w, m.locals, v.trace, parent, es[..i], false);
      if before.Vals? {
        OthersUnfold(es, before.vs, v.v, m.stack);
        PlacedStep(es, before.vs, v.v, m.slots, m1.slots, Run(prog, w, m, k).slots);
      }
    }
  }

  // ----- The call -----

  /** The code of a call in four parts. */
  lemma CallShape(callee: nat, es: seq<H.Expr>, n: nat)
    ensures var x := LowerExpr(H.Call(callee, es), n);
      var a := LowerComplexArguments(es, n);
      x.operand == RESULT && x.code == a.code + (StoreComplexArguments(es, |es|)
        + (LowerPlainArguments(es, |es|, a.next).code + [CallInstr(callee, |es|)]))
  {
    hide LowerComplexArguments, StoreComplexArguments, LowerPlainArguments, CallInstr;
    var a := LowerComplexArguments(es, n).code;
    var b := StoreComplexArguments(es, |es|);
    var c := LowerPlainArguments(es, |es|, LowerComplexArguments(es, n).next).code;
    Regroup4(a, b, c, [CallInstr(callee, |es|)]);
  }

  lemma Regroup4(a: seq<Instr>, b: seq<Instr>, c: seq<Instr>, d: seq<Instr>)
    ensures a + b + c + d == a + (b + (c + d))
  {
  }

  /** The call has been made with what was in the places of its arguments then. */
  ghost predicate Called(w: World, m: Machine, m': Machine, p: nat, rest: seq<Word>, callee: nat, es: seq<H.Expr>,
                         first: seq<Word>, r: H.Values, slots: seq<Word>, slots': seq<Word>)
    requires |first| == |es| && (r.Vals? ==> |r.vs| == |es|)
  {
    if r.ArgumentFault? then FaultedFrom(m, m', r.trace)
    else
      && |slots'| == MAX_REGISTER_ARGUMENTS && |AllPushed(es, first, r.vs)| == OnStackCount(|es|)
      && Placed(es, r.vs, slots, slots')
      && var trace := r.trace + [Event(callee, Arriving(slots', AllPushed(es, first, r.vs), |es|))];
      Reached(m, m', p, rest, trace) && m'.t1 == w.result(trace)
  }

  /** From the stored complex arguments on: the others, then the call. */
  lemma {:induction false} SimPassOthers(prog: seq<Instr>, w: World, m: Machine, rest: seq<Word>, e: H.Expr,
                                         first: seq<Word>, n: nat, most: nat, low: nat, high: nat)
    returns (k: nat, slots': seq<Word>)
    requires e.Call? && |first| == |e.arguments|
    requires H.AllBelow(e.arguments, e) && ArgumentsFit(e, e.arguments, most)
    requires m.stack == rest + Picked(e.arguments, first, true, MAX_REGISTER_ARGUMENTS)
    requires low <= |rest| && |m.stack| + Others(e.arguments) + most <= high
    requires Ready(prog, m, LowerPlainArguments(e.arguments, |e.arguments|, n).code
                            + [CallInstr(e.callee, |e.arguments|)])
    ensures Inside(prog, w, m, k, low, high)
    ensures Called(w, m, Run(prog, w, m, k), m.pc + |LowerPlainArguments(e.arguments, |e.arguments|, n).code| + 1,
                   rest, e.callee, e.arguments, first,
                   H.EvalArguments(w, m.locals, m.trace, e, e.arguments, false), m.slots, slots')
    decreases e, 1, |e.arguments| + 1, 0
  {
    hide Step, Run, Inside, At, UniqueLabels, H.IsComplex, LowerPlainArguments, CallInstr, ArgumentsFit, H.AllBelow,
      H.EvalArguments, Picked, Others, Placed, Arriving;
    var es := e.arguments;
    var code := LowerPlainArguments(es, |es|, n).code;
    AtSplit(prog, m.pc, code, [CallInstr(e.callee, |es|)]);
    k := SimOthers(prog, w, m, e, es, |es|, n, most, low, high);
    slots' := Run(prog, w, m, k).slots;
    var r := H.EvalArguments(w, m.locals, m.trace, e, es, false);
    if r.Vals? {
      InsideEnd(prog, w, m, k, low, high);
      AllPushedCount(es, first, r.vs);
      StackRegroup(rest, Picked(es, first, true, MAX_REGISTER_ARGUMENTS),
                   Picked(es, r.vs, false, MAX_REGISTER_ARGUMENTS));
      var j := RunCall(prog, w, Run(prog, w, m, k), rest, AllPushed(es, first, r.vs), e.callee, |es|, low, high);
      Sequence(prog, w, m, k, j, low, high);
      k := k + j;
    }
  }

  lemma StackRegroup(a: seq<Word>, b: seq<Word>, c: seq<Word>)
    ensures a + b + c == a + (b + c)
  {
  }

  /** From the collected values on: into their places, then the other arguments, then the call. */
  lemma {:induction false} SimPass(prog: seq<Instr>, w: World, m: Machine, rest: seq<Word>, e: H.Expr,
                                   first: seq<Word>, n: nat, most: nat, low: nat, high: nat)
    returns (k: nat, slots: seq<Word>, slots': seq<Word>)
    requires e.Call? && |first| == |e.arguments|
    requires H.AllBelow(e.arguments, e) && ArgumentsFit(e, e.arguments, most)
    requires m.stack == rest + Picked(e.arguments, first, true, 0)
    requires low <= |rest| && |rest| + |e.arguments| + most <= high
    requires var es := e.arguments;
      Ready(prog, m, StoreComplexArguments(es, |es|)
                     + (LowerPlainArguments(es, |es|, n).code + [CallInstr(e.callee, |es|)]))
    ensures Inside(prog, w, m, k, low, high)
    ensures ComplexPlaced(e.arguments, first, slots) && |slots| == MAX_REGISTER_ARGUMENTS
    ensures var es := e.arguments;
      Called(w, m, Run(prog, w, m, k),
             m.pc + |StoreComplexArguments(es, |es|)| + |LowerPlainArguments(es, |es|, n).code| + 1,
             rest, e.callee, es, first, H.EvalArguments(w, m.locals, m.trace, e, es, false), slots, slots')
    decreases e, 1, |e.arguments| + 1, 1
  {
    hide Step, Run, Inside, At, UniqueLabels, H.IsComplex, LowerPlainArguments, StoreComplexArguments, CallInstr,
      ArgumentsFit, H.AllBelow, H.EvalArguments, Picked, Others, Placed, Arriving, ComplexPlaced;
    var es := e.arguments;
    PickedCount(es, first, 0);
    PickedCount(es, first, MAX_REGISTER_ARGUMENTS);
    AtSplit(prog, m.pc, StoreComplexArguments(es, |es|), LowerPlainArguments(es, |es|, n).code + [CallInstr(e.callee,
        |es|)]);
    k := SimStoreComplex(prog, w, m, rest, es, first, |es|, low, high);
    var m1 := Run(prog, w, m, k);
    slots := m1.slots;
    var j, last := SimPassOthers(prog, w, m1, rest, e, first, n, most, low, high);
    slots' := last;
    Sequence(prog, w, m, k, j, low, high);
    k := k + j;
  }

  /** A call whatever its arguments: each phase ends as its evaluation does, and the call sees what is
      in the places of its arguments when it is made. */
  ghost predicate CallMade(w: World, m: Machine, m': Machine, p: nat, e: H.Expr, slots: seq<Word>, slots': seq<Word>)
    requires e.Call? && H.AllBelow(e.arguments, e)
  {
    var first := H.EvalArguments(w, m.locals, m.trace, e, e.arguments, true);
    if first.ArgumentFault? then FaultedFrom(m, m', first.trace)
    else
      && |slots| == MAX_REGISTER_ARGUMENTS && ComplexPlaced(e.arguments, first.vs, slots)
      && Called(w, m, m', p, m.stack, e.callee, e.arguments, first.vs,
                H.EvalArguments(w, m.locals, first.trace, e, e.arguments, false), slots, slots')
  }

  lemma {:induction false} SimCallMade(prog: seq<Instr>, w: World, m: Machine, e: H.Expr, n: nat, low: nat, high: nat)
    returns (k: nat, slots: seq<Word>, slots': seq<Word>)
    requires e.Call? && H.AllBelow(e.arguments, e)
    requires forall i :: 0 <= i < |e.arguments| ==> H.ExprOk(e.arguments[i])
    requires Ready(prog, m, LowerExpr(e, n).code) && Room(m, Slots(e), low, high)
    ensures Inside(prog, w, m, k, low, high)
    ensures CallMade(w, m, Run(prog, w, m, k), m.pc + |LowerExpr(e, n).code|, e, slots, slots')
    decreases e, 1, |e.arguments| + 1, 2
  {
    hide Step, Run, Inside, At, UniqueLabels, H.ExprOk, LowerExpr, LowerComplexArguments, StoreComplexArguments,
      LowerPlainArguments, CallInstr, ArgumentsFit, H.AllBelow, Picked, H.EvalArguments, ArgumentSlots, ComplexPlaced,
      Called;
    var es := e.arguments;
    CallFits(e);
    CallShape(e.callee, es, n);
    ArgumentSlotsBound(es);
    var a := LowerComplexArguments(es, n);
    AtSplit(prog, m.pc, a.code, StoreComplexArguments(es, |es|)
            + (LowerPlainArguments(es, |es|, a.next).code + [CallInstr(e.callee, |es|)]));
    k := SimComplexArguments(prog, w, m, e, es, n, ArgumentSlots(es), low, high);
    slots, slots' := [], [];
    var r := H.EvalArguments(w, m.locals, m.trace, e, es, true);
    if r.Vals? {
      var m1 := Run(prog, w, m, k);
      var j, s, s' := SimPass(prog, w, m1, m.stack, e, r.vs, a.next, ArgumentSlots(es), low, high);
      slots, slots' := s, s';
      Sequence(prog, w, m, k, j, low, high);
      k := k + j;
      CalledFrom(w, m, m1, Run(prog, w, m, k), m.pc + |LowerExpr(e, n).code|, m.stack, e.callee, es, r.vs,
                 H.EvalArguments(w, m.locals, r.trace, e, es, false), slots, slots');
    }
  }

  lemma CalledFrom(w: World, m: Machine, m1: Machine, m': Machine, p: nat, rest: seq<Word>, callee: nat,
                   es: seq<H.Expr>, first: seq<Word>, r: H.Values, slots: seq<Word>, slots': seq<Word>)
    requires |first| == |es| && (r.Vals? ==> |r.vs| == |es|) && m1.locals == m.locals
    requires Called(w, m1, m', p, rest, callee, es, first, r, slots, slots')
    ensures Called(w, m, m', p, rest, callee, es, first, r, slots, slots')
  {
    hide Placed, Arriving, AllPushed;
  }

  lemma {:induction false} SimCall(prog: seq<Instr>, w: World, m: Machine, e: H.Expr, n: nat, low: nat, high: nat)
    returns (k: nat)
    requires e.Call? && H.ExprOk(e)
    requires Ready(prog, m, LowerExpr(e, n).code) && Room(m, Slots(e), low, high)
    ensures Inside(prog, w, m, k, low, high)
    ensures var x := LowerExpr(e, n);
      Evaluated(w, m, Run(prog, w, m, k), m.pc + |x.code|, x.operand, H.EvalCall(w, m.locals, m.trace, e, e.callee,
          e.arguments))
    decreases e, 1, |e.arguments| + 1
  {
    hide Step, Run, Inside, At, UniqueLabels, LowerExpr, H.AllBelow, CallMade, Slots, Evaluated, H.EvalCall;
    CallFits(e);
    var j, slots, slots' := SimCallMade(prog, w, m, e, n, low, high);
    k := j;
    CallShape(e.callee, e.arguments, n);
    CallArrives(w, m, Run(prog, w, m, k), m.pc + |LowerExpr(e, n).code|, e, slots, slots');
  }

  /** Arguments as `ArgumentsOk` wants them: the call is the one of the source. */
  lemma CallArrives(w: World, m: Machine, m': Machine, p: nat, e: H.Expr, slots: seq<Word>, slots': seq<Word>)
    requires e.Call? && H.AllBelow(e.arguments, e) && H.ArgumentsOk(e.arguments)
    requires CallMade(w, m, m', p, e, slots, slots')
    ensures Evaluated(w, m, m', p, RESULT, H.EvalCall(w, m.locals, m.trace, e, e.callee, e.arguments))
  {
    hide H.AllBelow, H.ArgumentsOk, H.EvalArguments, ComplexPlaced, Placed, Arriving, AllPushed, H.Merged;
    var es := e.arguments;
    var first := H.EvalArguments(w, m.locals, m.trace, e, es, true);
    if first.Vals? {
      var r := H.EvalArguments(w, m.locals, first.trace, e, es, false);
      if r.Vals? {
        ArgumentsArrive(es, first.vs, r.vs, slots, slots');
      }
    }
  }

  // ----- Conditions -----

  lemma LinkSlotsBound(links: seq<H.Link>)
    ensures forall i :: 0 <= i < |links| ==> ComparisonSlots(links[i].comparison) <= LinkSlots(links)
    ensures LinkSlots(links) >= 1
  {
    hide ComparisonSlots;
    if links != [] {
      LinkSlotsBound(links[1..]);
      forall i | 0 < i < |links|
        ensures ComparisonSlots(links[i].comparison) <= LinkSlots(links)
      {
        assert links[1..][i - 1] == links[i];
      }
    }
  }

  lemma ConditionFits(e: H.Expr)
    requires e.Condition? && H.ExprOk(e)
    ensures H.ComparisonBelow(e.head, e) && H.LinksBelow(e.links, e)
    ensures var most := Max(ComparisonSlots(e.head), LinkSlots(e.links));
      ComparisonFits(e, e.head, most) && LinksFit(e, e.links, most) && most >= 1 && Slots(e) == 2 + most
  {
    hide PushedSlots;
    LinkSlotsBound(e.links);
  }

  /** The code of a chain of at least two comparisons. */
  lemma ConditionShape(head: H.Comparison, links: seq<H.Link>, n: nat)
    requires links != []
    ensures var x := LowerExpr(H.Condition(head, links), n);
      var r := LowerLinks(links, LowerComparison(head, n + 2).next, n, n + 1);
      x.operand == T1 && x.code == [Load(T1, Imm(0)), Push(T1)]
        + (LowerChain(head, false, links, n + 2, n, n + 1) + ConditionTail(n, n + 1, r.next))
  {
    hide LowerComparison, Join, LowerLinks, ConditionTail;
    var c := LowerComparison(head, n + 2);
    var r := LowerLinks(links, c.next, n, n + 1);
    Regroup5([Load(T1, Imm(0)), Push(T1)], c.code, Join(false, links, n, n + 1), r.code, ConditionTail(n, n + 1,
        r.next));
  }

  lemma Regroup5(a: seq<Instr>, b: seq<Instr>, c: seq<Instr>, d: seq<Instr>, e: seq<Instr>)
    ensures a + b + c + d + e == a + (b + (c + d) + e)
  {
  }

  lemma SingleComparison(w: World, locals: map<nat, Word>, trace: seq<Event>, parent: H.Expr, head: H.Comparison,
                         n: nat)
    requires H.ComparisonBelow(head, parent)
    ensures LowerExpr(H.Condition(head, []), n).code == LowerComparison(head, n + 1).code
    ensures LowerExpr(H.Condition(head, []), n).operand == T1
    ensures H.EvalChain(w, locals, trace, parent, head, []) == H.EvalComparison(w, locals, trace, parent, head)
  {
    hide LowerComparison, H.EvalComparison;
  }

  lemma TestedReads(w: World, m: Machine, m': Machine, p: nat, r: H.Value)
    requires Tested(m, m', p, m.stack, r)
    ensures Evaluated(w, m, m', p, T1, r)
  {
  }

  lemma {:induction false} SimCondition(prog: seq<Instr>, w: World, m: Machine, e: H.Expr, n: nat, low: nat, high: nat)
    returns (k: nat)
    requires e.Condition? && H.ExprOk(e)
    requires Ready(prog, m, LowerExpr(e, n).code) && Room(m, Slots(e), low, high)
    requires H.ComparisonBelow(e.head, e) && H.LinksBelow(e.links, e)
    ensures Inside(prog, w, m, k, low, high)
    ensures var x := LowerExpr(e, n);
      Evaluated(w, m, Run(prog, w, m, k), m.pc + |x.code|, x.operand,
                H.EvalChain(w, m.locals, m.trace, e, e.head, e.links))
    decreases e, 1, |e.links| + 2
  {
    hide Step, Run, Inside, At, UniqueLabels, H.ExprOk, LowerExpr, Slots, LowerComparison, ComparisonFits, LinksFit,
      H.EvalChain, H.EvalComparison, Evaluated, Tested, LinkSlots, ComparisonSlots, H.ComparisonBelow, H.LinksBelow;
    ConditionFits(e);
    var most := Max(ComparisonSlots(e.head), LinkSlots(e.links));
    if e.links == [] {
      SingleComparison(w, m.locals, m.trace, e, e.head, n);
      k := SimComparison(prog, w, m, e, e.head, n + 1, most, low, high);
      TestedReads(w, m, Run(prog, w, m, k), m.pc + |LowerExpr(e, n).code|, H.EvalChain(w, m.locals, m.trace, e,
          e.head, e.links));
    } else {
      k := SimLongCondition(prog, w, m, e, n, most, low, high);
    }
  }

  lemma {:induction false} SimLongCondition(prog: seq<Instr>, w: World, m: Machine, e: H.Expr, n: nat, most: nat,
                                            low: nat, high: nat)
    returns (k: nat)
    requires e.Condition? && e.links != []
    requires H.ComparisonBelow(e.head, e) && H.LinksBelow(e.links, e)
    requires ComparisonFits(e, e.head, most) && LinksFit(e, e.links, most) && most >= 1
    requires Ready(prog, m, LowerExpr(e, n).code) && Room(m, 2 + most, low, high)
    ensures Inside(prog, w, m, k, low, high)
    ensures var x := LowerExpr(e, n);
      Evaluated(w, m, Run(prog, w, m, k), m.pc + |x.code|, x.operand,
                H.EvalChain(w, m.locals, m.trace, e, e.head, e.links))
    decreases e, 1, |e.links| + 2, 0
  {
    hide Step, Run, Inside, At, UniqueLabels, LowerExpr, LowerComparison, ComparisonFits, LinksFit, LowerChain,
      ConditionTail, H.EvalChain, Evaluated, Load, Push, LowerLinks, H.ComparisonBelow, H.LinksBelow;
    ConditionShape(e.head, e.links, n);
    var chain := LowerChain(e.head, false, e.links, n + 2, n, n + 1);
    var done := LowerLinks(e.links, LowerComparison(e.head, n + 2).next, n, n + 1).next;
    var tail := ConditionTail(n, n + 1, done);
    ConditionTailLength(n, n + 1, done);
    AtSplit(prog, m.pc, [Load(T1, Imm(0)), Push(T1)], chain + tail);
    AtSplit(prog, m.pc + 2, chain, tail);
    k := RunLoadPush(prog, w, m, Imm(0), 0, low, high);
    var m1 := Run(prog, w, m, k);
    var j := SimChain(prog, w, m1, m.stack, e, e.head, false, e.links, n + 2, m.pc + 2 + |chain|,
                      n, n + 1, done, most, low, high);
    Sequence(prog, w, m, k, j, low, high);
    k := k + j;
    TestedReads(w, m, Run(prog, w, m, k), m.pc + |LowerExpr(e, n).code|, H.EvalChain(w, m.locals, m.trace, e, e.head,
        e.links));
  }

  lemma ConditionTailLength(trueLabel: nat, falseLabel: nat, doneLabel: nat)
    ensures |ConditionTail(trueLabel, falseLabel, doneLabel)| == 6
  {
  }

  // ----- All expressions -----

  lemma TermSlotsBound(rest: seq<H.Term>)
    ensures forall i :: 0 <= i < |rest| ==> PushedSlots(rest[i].operand) <= TermSlots(rest)
  {
    hide PushedSlots;
    if rest != [] {
      TermSlotsBound(rest[1..]);
      forall i | 0 < i < |rest|
        ensures PushedSlots(rest[i].operand) <= TermSlots(rest)
      {
        assert rest[1..][i - 1] == rest[i];
      }
    }
  }

  lemma MathFits(e: H.Expr, n: nat)
    requires e.Math? && H.ExprOk(e)
    ensures e.first < e && H.TermsBelow(e.rest, e)
    ensures var most := Max(PushedSlots(e.first), TermSlots(e.rest));
      ListOk(e, e.first, e.rest, 0, most) && Slots(e) == 3 + most
    ensures LowerExpr(e, n) == Lowered(LowerList(e.first, e.rest, n).code + [Pop(T1)], T1, LowerList(e.first, e.rest,
        n).next)
  {
    hide PushedSlots, LowerPushed, LowerTerms;
    TermSlotsBound(e.rest);
  }

  lemma RunPop(prog: seq<Instr>, w: World, m: Machine, rest: seq<Word>, v: Word, low: nat, high: nat)
    returns (k: nat)
    requires Ready(prog, m, [Pop(T1)]) && m.stack == rest + [v]
    requires low <= |rest| < high
    ensures Run(prog, w, m, k) == m.(pc := m.pc + 1, t1 := v, stack := rest)
    ensures Inside(prog, w, m, k, low, high)
  {
    hide Step;
    var code := [Pop(T1)];
    AtIndex(prog, m.pc, code);
    assert prog[m.pc + 0] == code[0];
    StepPopFirst(prog, w, m, rest, v);
    k := 0;
    Extend(prog, w, m, k, low, high);
    k := k + 1;
  }

  lemma {:induction false} SimMathExpr(prog: seq<Instr>, w: World, m: Machine, e: H.Expr, n: nat, low: nat, high: nat)
    returns (k: nat)
    requires e.Math? && H.ExprOk(e) && e.first < e && H.TermsBelow(e.rest, e)
    requires Ready(prog, m, LowerExpr(e, n).code) && Room(m, Slots(e), low, high)
    ensures Inside(prog, w, m, k, low, high)
    ensures var x := LowerExpr(e, n);
      Evaluated(w, m, Run(prog, w, m, k), m.pc + |x.code|, x.operand,
                H.EvalMath(w, m.locals, m.trace, e, e.first, e.rest))
    decreases e, 1, |e.rest| + 1
  {
    hide Step, Run, Inside, At, UniqueLabels, H.ExprOk, LowerExpr, Slots, LowerList, ListOk, H.EvalMath, PushedSlots,
        TermSlots;
    MathFits(e, n);
    var list := LowerList(e.first, e.rest, n).code;
    AtSplit(prog, m.pc, list, [Pop(T1)]);
    k := SimMath(prog, w, m, e, e.first, e.rest, n, 0, Max(PushedSlots(e.first), TermSlots(e.rest)), low, high);
    var r := H.EvalMath(w, m.locals, m.trace, e, e.first, e.rest);
    if r.Val? {
      var j := RunPop(prog, w, Run(prog, w, m, k), m.stack, r.v, low, high);
      Sequence(prog, w, m, k, j, low, high);
      k := k + j;
    }
  }

  lemma {:induction false} SimUnary(prog: seq<Instr>, w: World, m: Machine, e: H.Expr, n: nat, low: nat, high: nat)
    returns (k: nat)
    requires e.Unary? && H.ExprOk(e.operand) && e.operand < e
    requires var x := LowerExpr(e.operand, n);
      Ready(prog, m, x.code + [Load(T1, x.operand), Instr(UnaryOpcode(e.unary), T1, Nothing)])
    requires Room(m, Slots(e.operand), low, high)
    ensures Inside(prog, w, m, k, low, high)
    ensures var r := H.Eval(w, m.locals, m.trace, e.operand);
      Evaluated(w, m, Run(prog, w, m, k), m.pc + |LowerExpr(e.operand, n).code| + 2, T1,
                if r.Fault? then r else H.Val(H.UnaryMeaning(e.unary, r.v), r.trace))
    decreases e, 0
  {
    hide Step, Run, Inside, At, UniqueLabels, H.ExprOk, LowerExpr, H.Eval, UnaryOpcode, H.UnaryMeaning, Load, Slots;
    var x := LowerExpr(e.operand, n);
    AtSplit(prog, m.pc, x.code, [Load(T1, x.operand), Instr(UnaryOpcode(e.unary), T1, Nothing)]);
    k := SimExpr(prog, w, m, e.operand, n, low, high);
    var r := H.Eval(w, m.locals, m.trace, e.operand);
    if r.Val? {
      var j := RunUnary(prog, w, Run(prog, w, m, k), e.unary, x.operand, r.v, low, high);
      Sequence(prog, w, m, k, j, low, high);
      k := k + j;
    }
  }

  /** An expression's value loaded into the first temporary. */
  lemma {:induction false} SimLoaded(prog: seq<Instr>, w: World, m: Machine, e: H.Expr, n: nat, low: nat, high: nat)
    returns (k: nat)
    requires H.ExprOk(e)
    requires var x := LowerExpr(e, n); Ready(prog, m, x.code + [Load(T1, x.operand)])
    requires Room(m, Slots(e), low, high)
    ensures Inside(prog, w, m, k, low, high)
    ensures Tested(m, Run(prog, w, m, k), m.pc + |LowerExpr(e, n).code| + 1, m.stack, H.Eval(w, m.locals, m.trace, e))
    decreases e, 2, 0
  {
    hide Step, Run, Inside, At, UniqueLabels, H.ExprOk, LowerExpr, H.Eval, Load, Slots, Read;
    var x := LowerExpr(e, n);
    AtSplit(prog, m.pc, x.code, [Load(T1, x.operand)]);
    k := SimExpr(prog, w, m, e, n, low, high);
    var r := H.Eval(w, m.locals, m.trace, e);
    if r.Val? {
      var j := RunLoad(prog, w, Run(prog, w, m, k), x.operand, r.v, low, high);
      Sequence(prog, w, m, k, j, low, high);
      k := k + j;
    }
  }

  /** The simulation: running the code of an expression yields its value, its calls and its faults,
      within the slots `Slots` grants and never below the starting height. */
  lemma {:induction false} SimExpr(prog: seq<Instr>, w: World, m: Machine, e: H.Expr, n: nat, low: nat, high: nat)
    returns (k: nat)
    requires H.ExprOk(e)
    requires Ready(prog, m, LowerExpr(e, n).code) && Room(m, Slots(e), low, high)
    ensures Inside(prog, w, m, k, low, high)
    ensures var x := LowerExpr(e, n);
      Evaluated(w, m, Run(prog, w, m, k), m.pc + |x.code|, x.operand, H.Eval(w, m.locals, m.trace, e))
    decreases e, 1
  {
    hide Step, At, UniqueLabels, H.EvalMath, H.EvalChain, H.EvalCall, LowerPushed, LowerTerms, LowerComparison,
        LowerLinks,
      LowerComplexArguments, LowerPlainArguments, StoreComplexArguments, H.UnaryMeaning, UnaryOpcode, PushedSlots,
      TermSlots, LinkSlots, ArgumentSlots, ComparisonSlots;
    match e
    case Literal(_) => k := 0;
    case Variable(_) => k := 0;
    case Math(_, _) => k := SimMathExpr(prog, w, m, e, n, low, high);
    case Condition(_, _) => k := SimCondition(prog, w, m, e, n, low, high);
    case Unary(_, _) => k := SimUnary(prog, w, m, e, n, low, high);
    case Cast(value) =>
      k := SimLoaded(prog, w, m, value, n, low, high);
      if H.Eval(w, m.locals, m.trace, value).Val? {
        TestedReads(w, m, Run(prog, w, m, k), m.pc + |LowerExpr(e, n).code|, H.Eval(w, m.locals, m.trace, e));
      }
    case Call(_, _) => k := SimCall(prog, w, m, e, n, low, high);
  }
}
