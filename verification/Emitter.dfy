/** The append-only emitter: it walks the high-level IR, appends instructions, hands out labels and
    keeps the current break and continue labels. Each method is proved to append exactly the code
    that `Lowering` gives for its argument. */
module Emission {
  import opened Words
  import opened Lir
  import opened Lowering
  import H = Hir

  datatype Routine = Routine(name: nat, parameters: seq<nat>, body: seq<H.Stmt>)

  function LowerRoutines(functions: seq<Routine>): seq<Instr> {
    if functions == [] then []
    else
      var last := functions[|functions| - 1];
      LowerRoutines(functions[..|functions| - 1]) + LowerFunction(last.name, last.parameters, last.body)
  }

  // ----- The code of the parts that several statements share -----

  function Test(condition: H.Expr, n: nat, jump: Instr): Piece {
    var c := LowerExpr(condition, n);
    Piece(c.code + [Load(T1, c.operand), jump], c.next)
  }

  function ForHead(counter: nat, initializer: Option<H.Expr>, conditionLabel: nat, n: nat): Piece {
    var i := LowerInitializer(initializer, n);
    Piece([StartBlock()] + i.code + [Load(T1, i.operand), Store(Local(counter), T1), NewLabel(conditionLabel)], i.next)
  }

  function ForAdvance(counter: nat, increment: H.Expr, decrement: bool, conditionLabel: nat, advanceLabel: nat,
                      n: nat): Piece {
    var step := LowerPushed(increment, n);
    Piece([NewLabel(advanceLabel), Load(T1, Local(counter)), Push(T1)] + step.code
          + AdvanceTail(counter, decrement, conditionLabel), step.next)
  }

  class Emitter {
    var instructions: seq<Instr>
    var labelCount: nat
    var currentBreakLabel: nat
    var currentContinueLabel: nat

    constructor ()
      ensures instructions == [] && labelCount == 0 && currentBreakLabel == 0 && currentContinueLabel == 0
    {
      instructions, labelCount, currentBreakLabel, currentContinueLabel := [], 0, 0, 0;
    }

    method PushInstruction(op: Opcode, dst: Operand, src: Operand)
      modifies this`instructions
      ensures instructions == old(instructions) + [Instr(op, dst, src)]
    {
      instructions := instructions + [Instr(op, dst, src)];
    }

    method PushLoad(dst: Operand, src: Operand)
      modifies this`instructions
      ensures instructions == old(instructions) + [Load(dst, src)]
    {
      PushInstruction(LOAD, dst, src);
    }

    method NextLabel() returns (id: nat)
      modifies this`labelCount
      ensures id == old(labelCount) && labelCount == old(labelCount) + 1
    {
      id := labelCount;
      labelCount := labelCount + 1;
    }

    // ----- Expressions -----

    method EmitMathOperation(op: H.MathToken)
      modifies this`instructions
      ensures instructions == old(instructions) + DoMathOperation(op)
    {
      PushInstruction(POP, T2, Nothing);
      PushInstruction(POP, T1, Nothing);
      PushInstruction(MathOpcode(op), T1, T2);
      PushInstruction(PUSH, Nothing, T1);
    }

    /** Performs the delayed operators that bind at least as tightly as the arriving one. */
    method PerformDelayed(delayed: seq<H.MathToken>, p: nat) returns (kept: seq<H.MathToken>)
      modifies this`instructions
      ensures var k := Keep(delayed, p);
        kept == delayed[..k] && instructions == old(instructions) + Flush(delayed[k..])
    {
      hide H.Precedence, DoMathOperation, Flush;
      kept := delayed;
      ghost var k := Keep(delayed, p);
      assert delayed[..|delayed|] == delayed;
      while |kept| > 0 && H.Precedence(kept[|kept| - 1]) >= p
        invariant k <= |kept| <= |delayed| && kept == delayed[..|kept|] && Keep(kept, p) == k
        invariant instructions + Flush(kept[k..]) == old(instructions) + Flush(delayed[k..])
      {
        FlushStep(kept, k);
        Regroup2(instructions, DoMathOperation(kept[|kept| - 1]), Flush(kept[..|kept| - 1][k..]));
        EmitMathOperation(kept[|kept| - 1]);
        kept := kept[..|kept| - 1];
      }
      FlushNothing(kept);
    }

    method PerformAllDelayed(delayed: seq<H.MathToken>)
      modifies this`instructions
      ensures instructions == old(instructions) + Flush(delayed)
    {
      hide H.Precedence, DoMathOperation;
      var waiting := delayed;
      while |waiting| > 0
        invariant instructions + Flush(waiting) == old(instructions) + Flush(delayed)
      {
        EmitMathOperation(waiting[|waiting| - 1]);
        waiting := waiting[..|waiting| - 1];
      }
    }

    /** Code that leaves an expression's value on the operand stack. */
    method EmitPushed(e: H.Expr)
      modifies this`instructions, this`labelCount
      ensures instructions == old(instructions) + LowerPushed(e, old(labelCount)).code
      ensures labelCount == LowerPushed(e, old(labelCount)).next
      decreases e, 3
    {
      hide LowerExpr;
      var o := EmitExpr(e);
      PushLoad(T1, o);
      PushInstruction(PUSH, Nothing, T1);
    }

    method EmitMath(first: H.Expr, rest: seq<H.Term>)
      modifies this`instructions, this`labelCount
      ensures instructions == old(instructions) + LowerExpr(H.Math(first, rest), old(labelCount)).code
      ensures labelCount == LowerExpr(H.Math(first, rest), old(labelCount)).next
      decreases H.Math(first, rest), 0
    {
      hide LowerPushed, LowerTerms, Flush, Keep, H.Precedence;
      ghost var f := LowerPushed(first, labelCount);
      ghost var all := LowerTerms(rest, [], f.next);
      EmitPushed(first);
      var delayed: seq<H.MathToken> := [];
      var i := 0;
      assert rest[0..] == rest;
      while i < |rest|
        invariant 0 <= i <= |rest|
        invariant var left := LowerTerms(rest[i..], delayed, labelCount);
          instructions + left.code == old(instructions) + f.code + all.code && left.next == all.next
      {
        TermsUnfold(rest[i..], delayed, labelCount);
        assert rest[i..][0] == rest[i] && rest[i..][1..] == rest[i + 1..];
        ghost var k := Keep(delayed, H.Precedence(rest[i].op));
        ghost var before := instructions;
        ghost var x := LowerPushed(rest[i].operand, labelCount);
        ghost var more := LowerTerms(rest[i + 1..], delayed[..k] + [rest[i].op], x.next);
        Regroup3(before, Flush(delayed[k..]), x.code, more.code);
        delayed := PerformDelayed(delayed, H.Precedence(rest[i].op));
        delayed := delayed + [rest[i].op];
        EmitPushed(rest[i].operand);
        i := i + 1;
      }
      TermsUnfold(rest[i..], delayed, labelCount);
      PerformAllDelayed(delayed);
      PushInstruction(POP, T1, Nothing);
    }

    method EmitComparison(c: H.Comparison)
      modifies this`instructions, this`labelCount
      ensures instructions == old(instructions) + LowerComparison(c, old(labelCount)).code
      ensures labelCount == LowerComparison(c, old(labelCount)).next
      decreases c
    {
      hide LowerPushed;
      EmitPushed(c.lhs);
      EmitPushed(c.rhs);
      PushInstruction(POP, T2, Nothing);
      PushInstruction(POP, T1, Nothing);
      PushInstruction(COMPARE, T1, T2);
      PushInstruction(CompareOpcode(c.op), T1, T1);
    }

    method EmitJoin(useAnd: bool, links: seq<H.Link>, trueLabel: nat, falseLabel: nat)
      modifies this`instructions
      ensures instructions == old(instructions) + Join(useAnd, links, trueLabel, falseLabel)
    {
      PushInstruction(POP, T2, Nothing);
      PushInstruction(if useAnd then AND else OR, T1, T2);
      if links != [] && links[0].chain.BoolOr? {
        PushInstruction(JMP_TRUE, Label(trueLabel), T1);
      } else {
        PushInstruction(JMP_FALSE, Label(falseLabel), T1);
      }
      PushInstruction(PUSH, Nothing, T1);
    }

    method EmitLinks(links: seq<H.Link>, trueLabel: nat, falseLabel: nat)
      modifies this`instructions, this`labelCount
      ensures instructions == old(instructions) + LowerLinks(links, old(labelCount), trueLabel, falseLabel).code
      ensures labelCount == LowerLinks(links, old(labelCount), trueLabel, falseLabel).next
      decreases links
    {
      hide LowerComparison, LowerLinks, Join;
      ghost var all := LowerLinks(links, labelCount, trueLabel, falseLabel);
      var i := 0;
      assert links[0..] == links;
      while i < |links|
        invariant 0 <= i <= |links|
        invariant var left := LowerLinks(links[i..], labelCount, trueLabel, falseLabel);
          instructions + left.code == old(instructions) + all.code && left.next == all.next
      {
        LinksUnfold(links[i..], labelCount, trueLabel, falseLabel);
        assert links[i..][0] == links[i] && links[i..][1..] == links[i + 1..];
        var link: H.Link := links[i];
        assert link.comparison < link;
        ghost var x := LowerComparison(link.comparison, labelCount);
        Regroup3(instructions, x.code, Join(link.chain.BoolAnd?, links[i + 1..], trueLabel, falseLabel),
                 LowerLinks(links[i + 1..], x.next, trueLabel, falseLabel).code);
        EmitComparison(link.comparison);
        EmitJoin(link.chain.BoolAnd?, links[i + 1..], trueLabel, falseLabel);
        i := i + 1;
      }
      LinksUnfold(links[i..], labelCount, trueLabel, falseLabel);
    }

    method EmitCondition(head: H.Comparison, links: seq<H.Link>)
      modifies this`instructions, this`labelCount
      ensures instructions == old(instructions) + LowerExpr(H.Condition(head, links), old(labelCount)).code
      ensures labelCount == LowerExpr(H.Condition(head, links), old(labelCount)).next
      decreases H.Condition(head, links), 1
    {
      hide LowerComparison, LowerLinks, Join;
      if links == [] {
        var unused := NextLabel();
        EmitComparison(head);
        return;
      }
      var trueLabel := NextLabel();
      PushLoad(T1, Imm(0));
      PushInstruction(PUSH, Nothing, T1);
      var falseLabel := NextLabel();
      EmitChain(head, links, trueLabel, falseLabel);
    }

    method EmitChain(head: H.Comparison, links: seq<H.Link>, trueLabel: nat, falseLabel: nat)
      modifies this`instructions, this`labelCount
      ensures var c := LowerComparison(head, old(labelCount));
        var r := LowerLinks(links, c.next, trueLabel, falseLabel);
        && labelCount == r.next + 1
        && instructions == old(instructions) + (c.code + Join(false, links, trueLabel, falseLabel) + r.code
             + ConditionTail(trueLabel, falseLabel, r.next))
      decreases H.Condition(head, links), 0
    {
      hide LowerComparison, LowerLinks, Join, ConditionTail;
      EmitComparison(head);
      EmitJoin(false, links, trueLabel, falseLabel);
      EmitLinks(links, trueLabel, falseLabel);
      var doneLabel := NextLabel();
      EmitConditionTail(trueLabel, falseLabel, doneLabel);
    }

    method EmitConditionTail(trueLabel: nat, falseLabel: nat, doneLabel: nat)
      modifies this`instructions
      ensures instructions == old(instructions) + ConditionTail(trueLabel, falseLabel, doneLabel)
    {
      PushInstruction(POP, T1, Nothing);
      PushInstruction(NEW_LABEL, Nothing, Label(trueLabel));
      PushInstruction(JMP, Label(doneLabel), Nothing);
      PushInstruction(NEW_LABEL, Nothing, Label(falseLabel));
      PushLoad(T1, Imm(0));
      PushInstruction(NEW_LABEL, Nothing, Label(doneLabel));
    }

    /** The complex arguments, right to left, each left on the operand stack. */
    method EmitComplexArguments(arguments: seq<H.Expr>)
      modifies this`instructions, this`labelCount
      ensures instructions == old(instructions) + LowerComplexArguments(arguments, old(labelCount)).code
      ensures labelCount == LowerComplexArguments(arguments, old(labelCount)).next
      decreases arguments, 0
    {
      hide LowerPushed, LowerComplexArguments, H.IsComplex;
      ghost var all := LowerComplexArguments(arguments, labelCount);
      var i := |arguments|;
      assert arguments[..i] == arguments;
      while i > 0
        invariant 0 <= i <= |arguments|
        invariant var left := LowerComplexArguments(arguments[..i], labelCount);
          instructions + left.code == old(instructions) + all.code && left.next == all.next
      {
        ComplexArgumentsUnfold(arguments, i, labelCount);
        i := i - 1;
        if H.IsComplex(arguments[i]) {
          ghost var x := LowerPushed(arguments[i], labelCount);
          Regroup2(instructions, x.code, LowerComplexArguments(arguments[..i], x.next).code);
          EmitPushed(arguments[i]);
        }
      }
      NoComplexArguments(arguments, labelCount);
    }

    /** Their values, popped into place left to right. */
    method EmitStoreComplex(arguments: seq<H.Expr>)
      modifies this`instructions
      ensures instructions == old(instructions) + StoreComplexArguments(arguments, |arguments|)
    {
      hide H.IsComplex;
      var i := 0;
      while i < |arguments|
        invariant 0 <= i <= |arguments|
        invariant instructions == old(instructions) + StoreComplexArguments(arguments[..i], |arguments|)
      {
        assert arguments[..i + 1][..i] == arguments[..i];
        if H.IsComplex(arguments[i]) {
          PushInstruction(POP, T1, Nothing);
          PushInstruction(STORE, Argument(i, |arguments|, i, true), T1);
        }
        i := i + 1;
      }
      assert arguments[..i] == arguments;
    }

    /** The other arguments, right to left, straight into place. */
    method EmitPlainArguments(arguments: seq<H.Expr>)
      modifies this`instructions, this`labelCount
      ensures instructions == old(instructions) + LowerPlainArguments(arguments, |arguments|, old(labelCount)).code
      ensures labelCount == LowerPlainArguments(arguments, |arguments|, old(labelCount)).next
      decreases arguments, 0
    {
      hide LowerExpr, LowerPlainArguments, H.IsComplex;
      ghost var all := LowerPlainArguments(arguments, |arguments|, labelCount);
      var i := |arguments|;
      var ints := i;
      assert arguments[..i] == arguments;
      while i > 0
        invariant 0 <= i == ints <= |arguments|
        invariant var left := LowerPlainArguments(arguments[..i], |arguments|, labelCount);
          instructions + left.code == old(instructions) + all.code && left.next == all.next
      {
        PlainUnfold(arguments, i, labelCount);
        i := i - 1;
        if !H.IsComplex(arguments[i]) {
          ghost var x := LowerExpr(arguments[i], labelCount);
          Regroup3(instructions, x.code, [Load(T1, x.operand), StoreArgument(i, |arguments|)],
                   LowerPlainArguments(arguments[..i], |arguments|, x.next).code);
          var o := EmitExpr(arguments[i]);
          PushLoad(T1, o);
          PushInstruction(STORE, Argument(i, |arguments|, ints - 1, true), T1);
        }
        ints := ints - 1;
      }
      NoPlainArguments(arguments, |arguments|, labelCount);
    }

    method EmitCall(callee: nat, arguments: seq<H.Expr>)
      modifies this`instructions, this`labelCount
      ensures instructions == old(instructions) + LowerExpr(H.Call(callee, arguments), old(labelCount)).code
      ensures labelCount == LowerExpr(H.Call(callee, arguments), old(labelCount)).next
      decreases arguments, 1
    {
      hide LowerComplexArguments, LowerPlainArguments, StoreComplexArguments;
      EmitComplexArguments(arguments);
      EmitStoreComplex(arguments);
      EmitPlainArguments(arguments);
      PushInstruction(CALL, Argument(0, |arguments|, 0, true), Function(callee));
    }

    method EmitExpr(e: H.Expr) returns (o: Operand)
      modifies this`instructions, this`labelCount
      ensures instructions == old(instructions) + LowerExpr(e, old(labelCount)).code
      ensures labelCount == LowerExpr(e, old(labelCount)).next
      ensures o == LowerExpr(e, old(labelCount)).operand
      decreases e, 2
    {
      hide LowerPushed, LowerTerms, LowerComparison, LowerLinks, LowerComplexArguments, LowerPlainArguments,
        StoreComplexArguments, ConditionTail, Join;
      match e
      case Literal(n) => o := Imm(n);
      case Variable(uid) => o := Local(uid);
      case Math(first, rest) => EmitMath(first, rest); o := T1;
      case Condition(head, links) => EmitCondition(head, links); o := T1;
      case Unary(unary, operand) =>
        o := EmitExpr(operand);
        PushLoad(T1, o);
        PushInstruction(UnaryOpcode(unary), T1, Nothing);
        o := T1;
      case Cast(value) =>
        o := EmitExpr(value);
        PushLoad(T1, o);
        o := T1;
      case Call(callee, arguments) => EmitCall(callee, arguments); o := RESULT;
    }

    // ----- Statements -----

    method EmitStored(e: H.Expr, uid: nat)
      modifies this`instructions, this`labelCount
      ensures instructions == old(instructions) + LowerStored(e, uid, old(labelCount)).code
      ensures labelCount == LowerStored(e, uid, old(labelCount)).next
    {
      hide LowerExpr;
      var o := EmitExpr(e);
      PushLoad(T1, o);
      PushInstruction(STORE, Local(uid), T1);
    }

    method EmitInitializer(e: Option<H.Expr>) returns (o: Operand)
      modifies this`instructions, this`labelCount
      ensures instructions == old(instructions) + LowerInitializer(e, old(labelCount)).code
      ensures labelCount == LowerInitializer(e, old(labelCount)).next
      ensures o == LowerInitializer(e, old(labelCount)).operand
    {
      hide LowerExpr;
      if e.None? {
        o := Nothing;
      } else {
        o := EmitExpr(e.value);
      }
    }

    method EmitAll(ss: seq<H.Stmt>)
      modifies this
      ensures var p := LowerAll(ss, old(labelCount), old(currentBreakLabel), old(currentContinueLabel));
        instructions == old(instructions) + p.code && labelCount == p.next
      ensures currentBreakLabel == old(currentBreakLabel) && currentContinueLabel == old(currentContinueLabel)
      decreases ss, 0
    {
      hide LowerStmt, LowerAll;
      ghost var all := LowerAll(ss, labelCount, currentBreakLabel, currentContinueLabel);
      var i := 0;
      assert ss[0..] == ss;
      while i < |ss|
        invariant 0 <= i <= |ss|
        invariant currentBreakLabel == old(currentBreakLabel) && currentContinueLabel == old(currentContinueLabel)
        invariant var left := LowerAll(ss[i..], labelCount, currentBreakLabel, currentContinueLabel);
          instructions + left.code == old(instructions) + all.code && left.next == all.next
      {
        AllUnfold(ss[i..], labelCount, currentBreakLabel, currentContinueLabel);
        assert ss[i..][0] == ss[i] && ss[i..][1..] == ss[i + 1..];
        ghost var s := LowerStmt(ss[i], labelCount, currentBreakLabel, currentContinueLabel);
        Regroup2(instructions, s.code, LowerAll(ss[i + 1..], s.next, currentBreakLabel, currentContinueLabel).code);
        EmitStmt(ss[i]);
        i := i + 1;
      }
      AllUnfold(ss[i..], labelCount, currentBreakLabel, currentContinueLabel);
    }

    method EmitBlock(body: seq<H.Stmt>)
      modifies this
      ensures var p := LowerBlock(body, old(labelCount), old(currentBreakLabel), old(currentContinueLabel));
        instructions == old(instructions) + p.code && labelCount == p.next
      ensures currentBreakLabel == old(currentBreakLabel) && currentContinueLabel == old(currentContinueLabel)
      decreases body, 1
    {
      hide LowerAll;
      PushInstruction(START_BLOCK, Nothing, Nothing);
      EmitAll(body);
      PushInstruction(END_BLOCK, Nothing, EndBlockData(false));
    }

    /** Evaluates a condition and jumps on it. */
    method EmitTest(condition: H.Expr, jump: Opcode, target: nat)
      modifies this`instructions, this`labelCount
      ensures instructions == old(instructions) + Test(condition, old(labelCount), Instr(jump, Label(target), T1)).code
      ensures labelCount == Test(condition, old(labelCount), Instr(jump, Label(target), T1)).next
    {
      hide LowerExpr;
      var o := EmitExpr(condition);
      PushLoad(T1, o);
      PushInstruction(jump, Label(target), T1);
    }

    method EmitIf(condition: H.Expr, body: seq<H.Stmt>, otherwise: seq<H.Stmt>)
      modifies this
      ensures var p := LowerStmt(H.If(condition, body, otherwise), old(labelCount),
                                 old(currentBreakLabel), old(currentContinueLabel));
        instructions == old(instructions) + p.code && labelCount == p.next
      ensures currentBreakLabel == old(currentBreakLabel) && currentContinueLabel == old(currentContinueLabel)
      decreases H.If(condition, body, otherwise), 0
    {
      hide Test, LowerBlock, LowerStmt;
      IfUnfold(condition, body, otherwise, labelCount, currentBreakLabel, currentContinueLabel);
      if |otherwise| == 0 {
        var doneLabel := NextLabel();
        EmitTest(condition, JMP_FALSE, doneLabel);
        EmitBlock(body);
        PushInstruction(NEW_LABEL, Nothing, Label(doneLabel));
      } else {
        var elseLabel := NextLabel();
        var doneLabel := NextLabel();
        EmitTest(condition, JMP_FALSE, elseLabel);
        EmitBlock(body);
        EmitElse(otherwise, elseLabel, doneLabel);
      }
    }

    method EmitElse(otherwise: seq<H.Stmt>, elseLabel: nat, doneLabel: nat)
      modifies this
      ensures var p := LowerBlock(otherwise, old(labelCount), old(currentBreakLabel), old(currentContinueLabel));
        && labelCount == p.next
        && instructions == old(instructions) + ([Jump(doneLabel), NewLabel(elseLabel)] + p.code + [NewLabel(doneLabel)])
      ensures currentBreakLabel == old(currentBreakLabel) && currentContinueLabel == old(currentContinueLabel)
      decreases otherwise, 2
    {
      hide LowerBlock;
      PushInstruction(JMP, Label(doneLabel), Nothing);
      PushInstruction(NEW_LABEL, Nothing, Label(elseLabel));
      EmitBlock(otherwise);
      PushInstruction(NEW_LABEL, Nothing, Label(doneLabel));
    }

    method EmitWhile(condition: H.Expr, body: seq<H.Stmt>, doFirst: bool)
      modifies this
      ensures var p := LowerStmt(H.While(condition, body, doFirst), old(labelCount),
                                 old(currentBreakLabel), old(currentContinueLabel));
        instructions == old(instructions) + p.code && labelCount == p.next
      ensures currentBreakLabel == old(currentBreakLabel) && currentContinueLabel == old(currentContinueLabel)
      decreases H.While(condition, body, doFirst), 0
    {
      hide Test, LowerBlock, LowerStmt;
      WhileUnfold(condition, body, doFirst, labelCount, currentBreakLabel, currentContinueLabel);
      var conditionLabel := NextLabel();
      var bodyLabel := NextLabel();
      var doneLabel := NextLabel();
      var previousBreak, previousContinue := currentBreakLabel, currentContinueLabel;
      currentContinueLabel := conditionLabel;
      currentBreakLabel := doneLabel;
      if doFirst {
        EmitBodyFirst(condition, body, conditionLabel, bodyLabel);
      } else {
        EmitTestFirst(condition, body, conditionLabel, bodyLabel, doneLabel);
      }
      PushInstruction(NEW_LABEL, Nothing, Label(doneLabel));
      currentBreakLabel := previousBreak;
      currentContinueLabel := previousContinue;
    }

    method EmitBodyFirst(condition: H.Expr, body: seq<H.Stmt>, conditionLabel: nat, bodyLabel: nat)
      modifies this
      ensures var b := LowerBlock(body, old(labelCount), old(currentBreakLabel), old(currentContinueLabel));
        var c := Test(condition, b.next, JumpTrue(bodyLabel));
        && labelCount == c.next
        && instructions == old(instructions) + ([NewLabel(bodyLabel)] + b.code + [NewLabel(conditionLabel)] + c.code)
      ensures currentBreakLabel == old(currentBreakLabel) && currentContinueLabel == old(currentContinueLabel)
      decreases body, 2
    {
      hide Test, LowerBlock;
      PushInstruction(NEW_LABEL, Nothing, Label(bodyLabel));
      EmitBlock(body);
      PushInstruction(NEW_LABEL, Nothing, Label(conditionLabel));
      EmitTest(condition, JMP_TRUE, bodyLabel);
    }

    method EmitTestFirst(condition: H.Expr, body: seq<H.Stmt>, conditionLabel: nat, bodyLabel: nat, doneLabel: nat)
      modifies this
      ensures var c := Test(condition, old(labelCount), JumpFalse(doneLabel));
        var b := LowerBlock(body, c.next, old(currentBreakLabel), old(currentContinueLabel));
        && labelCount == b.next
        && instructions == old(instructions) + ([NewLabel(conditionLabel)] + c.code + [NewLabel(bodyLabel)] + b.code
             + [Instr(JMP, Label(conditionLabel), T1)])
      ensures currentBreakLabel == old(currentBreakLabel) && currentContinueLabel == old(currentContinueLabel)
      decreases body, 2
    {
      hide Test, LowerBlock;
      PushInstruction(NEW_LABEL, Nothing, Label(conditionLabel));
      EmitTest(condition, JMP_FALSE, doneLabel);
      PushInstruction(NEW_LABEL, Nothing, Label(bodyLabel));
      EmitBlock(body);
      PushInstruction(JMP, Label(conditionLabel), T1);
    }

    /** The body label is reused as the target of `continue`. */
    method EmitFor(counter: nat, initializer: Option<H.Expr>, condition: H.Expr, increment: H.Expr,
                   decrement: bool, body: seq<H.Stmt>)
      modifies this
      ensures var p := LowerStmt(H.For(counter, initializer, condition, increment, decrement, body),
                                 old(labelCount), old(currentBreakLabel), old(currentContinueLabel));
        instructions == old(instructions) + p.code && labelCount == p.next
      ensures currentBreakLabel == old(currentBreakLabel) && currentContinueLabel == old(currentContinueLabel)
      decreases H.For(counter, initializer, condition, increment, decrement, body), 0
    {
      hide Test, LowerBlock, LowerStmt, ForHead, ForAdvance;
      ForUnfold(counter, initializer, condition, increment, decrement, body, labelCount,
                currentBreakLabel, currentContinueLabel);
      ghost var i := ForHead(counter, initializer, labelCount, labelCount + 3);
      ghost var c := Test(condition, i.next, JumpFalse(labelCount + 2));
      ghost var b := LowerBlock(body, c.next, labelCount + 2, labelCount + 1);
      ghost var step := ForAdvance(counter, increment, decrement, labelCount, labelCount + 1, b.next);
      Regroup5(instructions, i.code, c.code + b.code, step.code, [NewLabel(labelCount + 2)],
               [Instr(END_BLOCK, Nothing, Nothing)]);
      var conditionLabel := NextLabel();
      var advanceLabel := NextLabel();
      var doneLabel := NextLabel();
      var previousBreak, previousContinue := currentBreakLabel, currentContinueLabel;
      currentContinueLabel := advanceLabel;
      EmitForHead(counter, initializer, conditionLabel);
      currentBreakLabel := doneLabel;
      EmitGuarded(condition, body, doneLabel);
      EmitForAdvance(counter, increment, decrement, conditionLabel, advanceLabel);
      PushInstruction(NEW_LABEL, Nothing, Label(doneLabel));
      PushInstruction(END_BLOCK, Nothing, Nothing);
      currentBreakLabel := previousBreak;
      currentContinueLabel := previousContinue;
    }

    method EmitGuarded(condition: H.Expr, body: seq<H.Stmt>, doneLabel: nat)
      modifies this
      ensures var c := Test(condition, old(labelCount), JumpFalse(doneLabel));
        var b := LowerBlock(body, c.next, old(currentBreakLabel), old(currentContinueLabel));
        instructions == old(instructions) + (c.code + b.code) && labelCount == b.next
      ensures currentBreakLabel == old(currentBreakLabel) && currentContinueLabel == old(currentContinueLabel)
      decreases body, 2
    {
      hide Test, LowerBlock;
      EmitTest(condition, JMP_FALSE, doneLabel);
      EmitBlock(body);
    }

    method EmitForHead(counter: nat, initializer: Option<H.Expr>, conditionLabel: nat)
      modifies this`instructions, this`labelCount
      ensures instructions == old(instructions) + ForHead(counter, initializer, conditionLabel, old(labelCount)).code
      ensures labelCount == ForHead(counter, initializer, conditionLabel, old(labelCount)).next
    {
      hide LowerInitializer;
      PushInstruction(START_BLOCK, Nothing, Nothing);
      var first := EmitInitializer(initializer);
      PushLoad(T1, first);
      PushInstruction(STORE, Local(counter), T1);
      PushInstruction(NEW_LABEL, Nothing, Label(conditionLabel));
    }

    method EmitForAdvance(counter: nat, increment: H.Expr, decrement: bool, conditionLabel: nat, advanceLabel: nat)
      modifies this`instructions, this`labelCount
      ensures instructions == old(instructions)
        + ForAdvance(counter, increment, decrement, conditionLabel, advanceLabel, old(labelCount)).code
      ensures labelCount
        == ForAdvance(counter, increment, decrement, conditionLabel, advanceLabel, old(labelCount)).next
    {
      hide LowerPushed, AdvanceTail;
      PushInstruction(NEW_LABEL, Nothing, Label(advanceLabel));
      PushLoad(T1, Local(counter));
      PushInstruction(PUSH, Nothing, T1);
      EmitPushed(increment);
      EmitAdvanceTail(counter, decrement, conditionLabel);
    }

    method EmitAdvanceTail(counter: nat, decrement: bool, conditionLabel: nat)
      modifies this`instructions
      ensures instructions == old(instructions) + AdvanceTail(counter, decrement, conditionLabel)
    {
      PushInstruction(POP, T2, Nothing);
      PushInstruction(POP, T1, Nothing);
      PushInstruction(if decrement then SUB else ADD, T1, T2);
      PushInstruction(STORE, Local(counter), T1);
      PushInstruction(JMP, Label(conditionLabel), Nothing);
    }

    method EmitKeyword(target: nat)
      modifies this`instructions
      ensures instructions == old(instructions) + [EndBlock(true), Jump(target)]
    {
      PushInstruction(END_BLOCK, Nothing, EndBlockData(true));
      PushInstruction(JMP, Label(target), Nothing);
    }

    method EmitStmt(s: H.Stmt)
      modifies this
      ensures var p := LowerStmt(s, old(labelCount), old(currentBreakLabel), old(currentContinueLabel));
        instructions == old(instructions) + p.code && labelCount == p.next
      ensures currentBreakLabel == old(currentBreakLabel) && currentContinueLabel == old(currentContinueLabel)
      decreases s, 1
    {
      hide LowerExpr, LowerBlock, LowerPushed, LowerInitializer, LowerStored, AdvanceTail;
      match s
      case Skip =>
      case Block(body) => EmitBlock(body);
      case Declare(uid, initial) =>
        if initial.None? {
          PushInstruction(STORE, Local(uid), Nothing);
        } else {
          EmitStored(initial.value, uid);
        }
      case Assign(uid, value) => EmitStored(value, uid);
      case CallStmt(callee, arguments) => EmitCall(callee, arguments);
      case If(condition, body, otherwise) => EmitIf(condition, body, otherwise);
      case While(condition, body, doFirst) => EmitWhile(condition, body, doFirst);
      case For(counter, initializer, condition, increment, decrement, body) =>
        EmitFor(counter, initializer, condition, increment, decrement, body);
      case Break => EmitKeyword(currentBreakLabel);
      case Continue => EmitKeyword(currentContinueLabel);
      case Return(result) =>
        var o := EmitInitializer(result);
        PushInstruction(RETURN, Nothing, o);
    }

    // ----- Functions -----

    method EmitParameters(parameters: seq<nat>)
      modifies this`instructions
      ensures instructions == old(instructions) + LowerParameters(parameters, |parameters|)
    {
      var ints := 0;
      for i := 0 to |parameters|
        invariant ints == i
        invariant instructions == old(instructions) + LowerParameters(parameters[..i], |parameters|)
      {
        assert parameters[..i + 1][..i] == parameters[..i];
        PushInstruction(STORE, Local(parameters[i]), Argument(i, |parameters|, ints, false));
        ints := ints + 1;
      }
      assert parameters[..|parameters|] == parameters;
    }

    method EmitFunction(name: nat, parameters: seq<nat>, body: seq<H.Stmt>)
      requires currentBreakLabel == 0 && currentContinueLabel == 0
      modifies this
      ensures instructions == old(instructions) + LowerFunction(name, parameters, body)
      ensures currentBreakLabel == 0 && currentContinueLabel == 0
    {
      hide LowerParameters, LowerAll;
      labelCount := 0;
      PushInstruction(START_FUNC, Nothing, Function(name));
      EmitParameters(parameters);
      EmitAll(body);
      PushInstruction(END_FUNC, Nothing, Function(name));
    }

    /** All functions of a program, one after the other, and the final EOF. */
    method EmitProgram(functions: seq<Routine>)
      requires currentBreakLabel == 0 && currentContinueLabel == 0
      modifies this
      ensures instructions == old(instructions) + LowerRoutines(functions) + [END]
    {
      hide LowerFunction;
      for i := 0 to |functions|
        invariant currentBreakLabel == 0 && currentContinueLabel == 0
        invariant instructions == old(instructions) + LowerRoutines(functions[..i])
      {
        assert functions[..i + 1][..i] == functions[..i];
        EmitFunction(functions[i].name, functions[i].parameters, functions[i].body);
      }
      assert functions[..|functions|] == functions;
      PushInstruction(EOF, Nothing, Nothing);
    }
  }

  lemma AllUnfold(ss: seq<H.Stmt>, n: nat, breakLabel: nat, continueLabel: nat)
    ensures LowerAll(ss, n, breakLabel, continueLabel) ==
      if ss == [] then Piece([], n)
      else
        var s := LowerStmt(ss[0], n, breakLabel, continueLabel);
        var more := LowerAll(ss[1..], s.next, breakLabel, continueLabel);
        Piece(s.code + more.code, more.next)
  {
    hide LowerStmt;
  }

  lemma TermsUnfold(rest: seq<H.Term>, delayed: seq<H.MathToken>, n: nat)
    ensures LowerTerms(rest, delayed, n) ==
      if rest == [] then Piece(Flush(delayed), n)
      else
        var k := Keep(delayed, H.Precedence(rest[0].op));
        var x := LowerPushed(rest[0].operand, n);
        var more := LowerTerms(rest[1..], delayed[..k] + [rest[0].op], x.next);
        Piece(Flush(delayed[k..]) + x.code + more.code, more.next)
  {
    hide LowerPushed, Flush, Keep, H.Precedence;
  }

  lemma Regroup3(a: seq<Instr>, b: seq<Instr>, c: seq<Instr>, d: seq<Instr>)
    ensures a + (b + c + d) == a + b + c + d
  {
  }

  lemma IfUnfold(condition: H.Expr, body: seq<H.Stmt>, otherwise: seq<H.Stmt>, n: nat, breakLabel: nat,
                 continueLabel: nat)
    ensures LowerStmt(H.If(condition, body, otherwise), n, breakLabel, continueLabel) ==
      if otherwise == [] then
        var c := Test(condition, n + 1, JumpFalse(n));
        var b := LowerBlock(body, c.next, breakLabel, continueLabel);
        Piece(c.code + b.code + [NewLabel(n)], b.next)
      else
        var c := Test(condition, n + 2, JumpFalse(n));
        var b := LowerBlock(body, c.next, breakLabel, continueLabel);
        var o := LowerBlock(otherwise, b.next, breakLabel, continueLabel);
        Piece(c.code + b.code + ([Jump(n + 1), NewLabel(n)] + o.code + [NewLabel(n + 1)]), o.next)
  {
    hide LowerExpr, LowerBlock;
  }

  lemma WhileUnfold(condition: H.Expr, body: seq<H.Stmt>, doFirst: bool, n: nat, breakLabel: nat, continueLabel: nat)
    ensures LowerStmt(H.While(condition, body, doFirst), n, breakLabel, continueLabel) ==
      if doFirst then
        var b := LowerBlock(body, n + 3, n + 2, n);
        var c := Test(condition, b.next, JumpTrue(n + 1));
        Piece([NewLabel(n + 1)] + b.code + [NewLabel(n)] + c.code + [NewLabel(n + 2)], c.next)
      else
        var c := Test(condition, n + 3, JumpFalse(n + 2));
        var b := LowerBlock(body, c.next, n + 2, n);
        Piece([NewLabel(n)] + c.code + [NewLabel(n + 1)] + b.code + [Instr(JMP, Label(n), T1)] + [NewLabel(n + 2)],
              b.next)
  {
    hide LowerExpr, LowerBlock;
    if doFirst {
      BodyFirstShape(condition, body, n);
    } else {
      TestFirstShape(condition, body, n);
    }
  }

  lemma BodyFirstShape(condition: H.Expr, body: seq<H.Stmt>, n: nat)
    ensures
      var b := LowerBlock(body, n + 3, n + 2, n);
      var c := LowerExpr(condition, b.next);
      [NewLabel(n + 1)] + b.code + [NewLabel(n)] + c.code + [Load(T1, c.operand), JumpTrue(n + 1), NewLabel(n + 2)]
      == [NewLabel(n + 1)] + b.code + [NewLabel(n)] + Test(condition, b.next, JumpTrue(n + 1)).code + [NewLabel(n + 2)]
  {
    hide LowerExpr, LowerBlock;
  }

  lemma TestFirstShape(condition: H.Expr, body: seq<H.Stmt>, n: nat)
    ensures
      var c := LowerExpr(condition, n + 3);
      var b := LowerBlock(body, c.next, n + 2, n);
      [NewLabel(n)] + c.code + [Load(T1, c.operand), JumpFalse(n + 2), NewLabel(n + 1)] + b.code
      + [Instr(JMP, Label(n), T1), NewLabel(n + 2)]
      == [NewLabel(n)] + Test(condition, n + 3, JumpFalse(n + 2)).code + [NewLabel(n + 1)] + b.code
         + [Instr(JMP, Label(n), T1)] + [NewLabel(n + 2)]
  {
    hide LowerExpr, LowerBlock;
  }

  lemma ForUnfold(counter: nat, initializer: Option<H.Expr>, condition: H.Expr, increment: H.Expr,
                  decrement: bool, body: seq<H.Stmt>, n: nat, breakLabel: nat, continueLabel: nat)
    ensures LowerStmt(H.For(counter, initializer, condition, increment, decrement, body), n, breakLabel,
                      continueLabel) ==
      var i := ForHead(counter, initializer, n, n + 3);
      var c := Test(condition, i.next, JumpFalse(n + 2));
      var b := LowerBlock(body, c.next, n + 2, n + 1);
      var step := ForAdvance(counter, increment, decrement, n, n + 1, b.next);
      Piece(i.code + (c.code + b.code) + step.code + [NewLabel(n + 2)] + [Instr(END_BLOCK, Nothing, Nothing)],
            step.next)
  {
    hide LowerExpr, LowerBlock, LowerInitializer, LowerPushed, AdvanceTail;
  }

  lemma Regroup5(a: seq<Instr>, b: seq<Instr>, c: seq<Instr>, d: seq<Instr>, e: seq<Instr>, f: seq<Instr>)
    ensures a + b + c + d + e + f == a + (b + c + d + e + f)
  {
  }

  lemma Regroup2(a: seq<Instr>, b: seq<Instr>, c: seq<Instr>)
    ensures a + (b + c) == a + b + c
  {
  }

  lemma FlushStep(kept: seq<H.MathToken>, k: nat)
    requires k < |kept|
    ensures Flush(kept[k..]) == DoMathOperation(kept[|kept| - 1]) + Flush(kept[..|kept| - 1][k..])
  {
    hide DoMathOperation;
    assert kept[k..][..|kept| - k - 1] == kept[..|kept| - 1][k..];
  }

  lemma FlushNothing(kept: seq<H.MathToken>)
    ensures Flush(kept[|kept|..]) == []
  {
  }

  lemma LinksUnfold(links: seq<H.Link>, n: nat, trueLabel: nat, falseLabel: nat)
    ensures LowerLinks(links, n, trueLabel, falseLabel) ==
      if links == [] then Piece([], n)
      else
        var c := LowerComparison(links[0].comparison, n);
        var more := LowerLinks(links[1..], c.next, trueLabel, falseLabel);
        Piece(c.code + Join(links[0].chain.BoolAnd?, links[1..], trueLabel, falseLabel) + more.code, more.next)
  {
    hide LowerComparison, Join;
  }

  lemma ComplexArgumentsUnfold(es: seq<H.Expr>, i: nat, n: nat)
    requires 0 < i <= |es|
    ensures LowerComplexArguments(es[..i], n) ==
      if !H.IsComplex(es[i - 1]) then LowerComplexArguments(es[..i - 1], n)
      else
        var x := LowerPushed(es[i - 1], n);
        var more := LowerComplexArguments(es[..i - 1], x.next);
        Piece(x.code + more.code, more.next)
  {
    hide LowerPushed, H.IsComplex;
    assert es[..i][..i - 1] == es[..i - 1];
  }

  lemma NoComplexArguments(es: seq<H.Expr>, n: nat)
    ensures LowerComplexArguments(es[..0], n) == Piece([], n)
  {
  }

  lemma PlainUnfold(es: seq<H.Expr>, i: nat, n: nat)
    requires 0 < i <= |es|
    ensures LowerPlainArguments(es[..i], |es|, n) ==
      if H.IsComplex(es[i - 1]) then LowerPlainArguments(es[..i - 1], |es|, n)
      else
        var x := LowerExpr(es[i - 1], n);
        var more := LowerPlainArguments(es[..i - 1], |es|, x.next);
        Piece(x.code + [Load(T1, x.operand), StoreArgument(i - 1, |es|)] + more.code, more.next)
  {
    hide LowerExpr, H.IsComplex;
    assert es[..i][..i - 1] == es[..i - 1];
  }

  lemma NoPlainArguments(es: seq<H.Expr>, total: nat, n: nat)
    ensures LowerPlainArguments(es[..0], total, n) == Piece([], n)
  {
  }
}
