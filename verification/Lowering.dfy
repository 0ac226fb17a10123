/** What the emitter appends for each construct, as functions of the construct and of the number of
    labels handed out so far. The emitter's methods are proved against these functions. */
module Lowering {
  import opened Words
  import opened Lir
  import H = Hir

  /** Emitted code and the label counter after it. */
  datatype Piece = Piece(code: seq<Instr>, next: nat)

  /** The same for an expression, with the operand that holds its value once the code has run. */
  datatype Lowered = Lowered(code: seq<Instr>, operand: Operand, next: nat)

  function Load(dst: Operand, src: Operand): Instr { Instr(LOAD, dst, src) }
  function Store(dst: Operand, src: Operand): Instr { Instr(STORE, dst, src) }
  function Push(src: Operand): Instr { Instr(PUSH, Nothing, src) }
  function Pop(dst: Operand): Instr { Instr(POP, dst, Nothing) }
  function NewLabel(id: nat): Instr { Instr(NEW_LABEL, Nothing, Label(id)) }
  function Jump(id: nat): Instr { Instr(JMP, Label(id), Nothing) }
  function JumpTrue(id: nat): Instr { Instr(JMP_TRUE, Label(id), T1) }
  function JumpFalse(id: nat): Instr { Instr(JMP_FALSE, Label(id), T1) }
  function StartBlock(): Instr { Instr(START_BLOCK, Nothing, Nothing) }
  function EndBlock(conditional: bool): Instr { Instr(END_BLOCK, Nothing, EndBlockData(conditional)) }

  /** The last instruction of a program. */
  const END: Instr := Instr(EOF, Nothing, Nothing)

  function MathOpcode(op: H.MathToken): Opcode {
    match op
    case Plus => ADD
    case Minus => SUB
    case Star => MUL
    case Slash => DIV
    case Percent => MOD
    case And => AND
    case Or => OR
    case Xor => XOR
    case Shl => SHL
    case Shr => SHR
  }

  function CompareOpcode(op: H.CompareToken): Opcode {
    match op
    case Eq => SETE
    case Neq => SETNE
    case Lt => SETLT
    case Lte => SETLTE
    case Gt => SETGT
    case Gte => SETGTE
  }

  function UnaryOpcode(op: H.UnaryToken): Opcode {
    match op
    case Negate => NEG
    case Complement => NOT
    case BoolNot => BOOL_NOT
  }

  /** How many delayed operators stay when an operator of precedence p arrives. */
  function Keep(delayed: seq<H.MathToken>, p: nat): (k: nat)
    ensures k <= |delayed|
    ensures forall i :: k <= i < |delayed| ==> H.Precedence(delayed[i]) >= p
    ensures k > 0 ==> H.Precedence(delayed[k - 1]) < p
  {
    if delayed == [] || H.Precedence(delayed[|delayed| - 1]) < p then |delayed|
    else Keep(delayed[..|delayed| - 1], p)
  }

  function DoMathOperation(op: H.MathToken): seq<Instr> {
    [Pop(T2), Pop(T1), Instr(MathOpcode(op), T1, T2), Push(T1)]
  }

  /** Delayed operators performed from the last one down. */
  function Flush(delayed: seq<H.MathToken>): seq<Instr> {
    if delayed == [] then []
    else DoMathOperation(delayed[|delayed| - 1]) + Flush(delayed[..|delayed| - 1])
  }

  function LowerExpr(e: H.Expr, n: nat): Lowered
    decreases e, 0
  {
    match e
    case Literal(k) => Lowered([], Imm(k), n)
    case Variable(uid) => Lowered([], Local(uid), n)
    case Math(first, rest) =>
      var f := LowerPushed(first, n);
      var r := LowerTerms(rest, [], f.next);
      Lowered(f.code + r.code + [Pop(T1)], T1, r.next)
    case Condition(head, links) =>
      if links == [] then
        var c := LowerComparison(head, n + 1);
        Lowered(c.code, T1, c.next)
      else
        var c := LowerComparison(head, n + 2);
        var r := LowerLinks(links, c.next, n, n + 1);
        Lowered([Load(T1, Imm(0)), Push(T1)] + c.code + Join(false, links, n, n + 1) + r.code
                + ConditionTail(n, n + 1, r.next), T1, r.next + 1)
    case Unary(unary, operand) =>
      var x := LowerExpr(operand, n);
      Lowered(x.code + [Load(T1, x.operand), Instr(UnaryOpcode(unary), T1, Nothing)], T1, x.next)
    case Cast(value) =>
      var x := LowerExpr(value, n);
      Lowered(x.code + [Load(T1, x.operand)], T1, x.next)
    case Call(callee, arguments) =>
      var a := LowerComplexArguments(arguments, n);
      var b := LowerPlainArguments(arguments, |arguments|, a.next);
      Lowered(a.code + StoreComplexArguments(arguments, |arguments|) + b.code + [CallInstr(callee, |arguments|)],
              RESULT, b.next)
  }

  /** An expression whose value is left on the operand stack. */
  function LowerPushed(e: H.Expr, n: nat): Piece
    decreases e, 1
  {
    var x := LowerExpr(e, n);
    Piece(x.code + [Load(T1, x.operand), Push(T1)], x.next)
  }

  function LowerTerms(rest: seq<H.Term>, delayed: seq<H.MathToken>, n: nat): Piece
    decreases rest
  {
    if rest == [] then Piece(Flush(delayed), n)
    else
      var term: H.Term := rest[0];
      var op, operand := term.op, term.operand;
      assert operand < term;
      var k := Keep(delayed, H.Precedence(op));
      var x := LowerPushed(operand, n);
      var more := LowerTerms(rest[1..], delayed[..k] + [op], x.next);
      Piece(Flush(delayed[k..]) + x.code + more.code, more.next)
  }

  function LowerComparison(c: H.Comparison, n: nat): Piece
    decreases c
  {
    var l := LowerPushed(c.lhs, n);
    var r := LowerPushed(c.rhs, l.next);
    Piece(l.code + r.code + ComparisonTail(c.op), r.next)
  }

  function ComparisonTail(op: H.CompareToken): seq<Instr> {
    [Pop(T2), Pop(T1), Instr(COMPARE, T1, T2), Instr(CompareOpcode(op), T1, T1)]
  }

  /** Joins a comparison to the value so far and leaves the chain when that value decides it. */
  function Join(useAnd: bool, links: seq<H.Link>, trueLabel: nat, falseLabel: nat): seq<Instr> {
    [Pop(T2), Instr(if useAnd then AND else OR, T1, T2),
     if links != [] && links[0].chain.BoolOr? then JumpTrue(trueLabel) else JumpFalse(falseLabel),
     Push(T1)]
  }

  function LowerLinks(links: seq<H.Link>, n: nat, trueLabel: nat, falseLabel: nat): Piece
    decreases links
  {
    if links == [] then Piece([], n)
    else
      var link: H.Link := links[0];
      var chain, comparison := link.chain, link.comparison;
      assert comparison < link;
      var c := LowerComparison(comparison, n);
      var more := LowerLinks(links[1..], c.next, trueLabel, falseLabel);
      Piece(c.code + Join(chain.BoolAnd?, links[1..], trueLabel, falseLabel) + more.code, more.next)
  }

  function ConditionTail(trueLabel: nat, falseLabel: nat, doneLabel: nat): seq<Instr> {
    [Pop(T1), NewLabel(trueLabel), Jump(doneLabel), NewLabel(falseLabel), Load(T1, Imm(0)), NewLabel(doneLabel)]
  }

  function CallInstr(callee: nat, total: nat): Instr {
    Instr(CALL, Argument(0, total, 0, true), Function(callee))
  }

  /** Complex arguments are evaluated right to left onto the operand stack. */
  function LowerComplexArguments(es: seq<H.Expr>, n: nat): Piece
    decreases es
  {
    if es == [] then Piece([], n)
    else
      var last := es[|es| - 1];
      if !H.IsComplex(last) then LowerComplexArguments(es[..|es| - 1], n)
      else
        var x := LowerPushed(last, n);
        var more := LowerComplexArguments(es[..|es| - 1], x.next);
        Piece(x.code + more.code, more.next)
  }

  /** Then they are popped into their places left to right. */
  function StoreComplexArguments(es: seq<H.Expr>, total: nat): seq<Instr> {
    if es == [] then []
    else
      StoreComplexArguments(es[..|es| - 1], total) +
      if H.IsComplex(es[|es| - 1]) then [Pop(T1), StoreArgument(|es| - 1, total)] else []
  }

  function StoreArgument(index: nat, total: nat): Instr {
    Store(Argument(index, total, index, true), T1)
  }

  /** The other arguments are evaluated right to left straight into their places. */
  function LowerPlainArguments(es: seq<H.Expr>, total: nat, n: nat): Piece
    decreases es
  {
    if es == [] then Piece([], n)
    else
      var last := es[|es| - 1];
      if H.IsComplex(last) then LowerPlainArguments(es[..|es| - 1], total, n)
      else
        var x := LowerExpr(last, n);
        var more := LowerPlainArguments(es[..|es| - 1], total, x.next);
        Piece(x.code + [Load(T1, x.operand), StoreArgument(|es| - 1, total)] + more.code, more.next)
  }

  // ----- Statements -----

  function LowerStored(e: H.Expr, uid: nat, n: nat): Piece {
    var x := LowerExpr(e, n);
    Piece(x.code + [Load(T1, x.operand), Store(Local(uid), T1)], x.next)
  }

  function LowerInitializer(e: Option<H.Expr>, n: nat): Lowered {
    if e.None? then Lowered([], Nothing, n) else LowerExpr(e.value, n)
  }

  function LowerStmt(s: H.Stmt, n: nat, breakLabel: nat, continueLabel: nat): Piece
    decreases s
  {
    match s
    case Skip => Piece([], n)
    case Block(body) => LowerBlock(body, n, breakLabel, continueLabel)
    case Declare(uid, initial) =>
      if initial.None? then Piece([Store(Local(uid), Nothing)], n) else LowerStored(initial.value, uid, n)
    case Assign(uid, value) => LowerStored(value, uid, n)
    case CallStmt(callee, arguments) =>
      var x := LowerExpr(H.Call(callee, arguments), n);
      Piece(x.code, x.next)
    case If(condition, body, otherwise) =>
      if otherwise == [] then
        var c := LowerExpr(condition, n + 1);
        var b := LowerBlock(body, c.next, breakLabel, continueLabel);
        Piece(c.code + [Load(T1, c.operand), JumpFalse(n)] + b.code + [NewLabel(n)], b.next)
      else
        var c := LowerExpr(condition, n + 2);
        var b := LowerBlock(body, c.next, breakLabel, continueLabel);
        var o := LowerBlock(otherwise, b.next, breakLabel, continueLabel);
        Piece(c.code + [Load(T1, c.operand), JumpFalse(n)] + b.code + [Jump(n + 1), NewLabel(n)]
              + o.code + [NewLabel(n + 1)], o.next)
    case While(condition, body, doFirst) =>
      if doFirst then
        var b := LowerBlock(body, n + 3, n + 2, n);
        var c := LowerExpr(condition, b.next);
        Piece([NewLabel(n + 1)] + b.code + [NewLabel(n)] + c.code
              + [Load(T1, c.operand), JumpTrue(n + 1), NewLabel(n + 2)], c.next)
      else
        var c := LowerExpr(condition, n + 3);
        var b := LowerBlock(body, c.next, n + 2, n);
        Piece([NewLabel(n)] + c.code + [Load(T1, c.operand), JumpFalse(n + 2), NewLabel(n + 1)] + b.code
              + [Instr(JMP, Label(n), T1), NewLabel(n + 2)], b.next)
    case For(counter, initializer, condition, increment, decrement, body) =>
      var i := LowerInitializer(initializer, n + 3);
      var c := LowerExpr(condition, i.next);
      var b := LowerBlock(body, c.next, n + 2, n + 1);
      var step := LowerPushed(increment, b.next);
      Piece([StartBlock()] + i.code + [Load(T1, i.operand), Store(Local(counter), T1), NewLabel(n)]
            + c.code + [Load(T1, c.operand), JumpFalse(n + 2)] + b.code
            + [NewLabel(n + 1), Load(T1, Local(counter)), Push(T1)] + step.code
            + AdvanceTail(counter, decrement, n)
            + [NewLabel(n + 2), Instr(END_BLOCK, Nothing, Nothing)], step.next)
    case Break => Piece([EndBlock(true), Jump(breakLabel)], n)
    case Continue => Piece([EndBlock(true), Jump(continueLabel)], n)
    case Return(result) =>
      var x := LowerInitializer(result, n);
      Piece(x.code + [Instr(RETURN, Nothing, x.operand)], x.next)
  }

  function AdvanceTail(counter: nat, decrement: bool, conditionLabel: nat): seq<Instr> {
    [Pop(T2), Pop(T1), Instr(if decrement then SUB else ADD, T1, T2), Store(Local(counter), T1), Jump(conditionLabel)]
  }

  function LowerBlock(ss: seq<H.Stmt>, n: nat, breakLabel: nat, continueLabel: nat): Piece
    decreases ss, 1
  {
    var b := LowerAll(ss, n, breakLabel, continueLabel);
    Piece([StartBlock()] + b.code + [EndBlock(false)], b.next)
  }

  function LowerAll(ss: seq<H.Stmt>, n: nat, breakLabel: nat, continueLabel: nat): Piece
    decreases ss, 0
  {
    if ss == [] then Piece([], n)
    else
      var s := LowerStmt(ss[0], n, breakLabel, continueLabel);
      var more := LowerAll(ss[1..], s.next, breakLabel, continueLabel);
      Piece(s.code + more.code, more.next)
  }

  /** Parameters are stored into locals in order; register arguments first, then stack ones. */
  function LowerParameters(uids: seq<nat>, total: nat): seq<Instr> {
    if uids == [] then []
    else
      LowerParameters(uids[..|uids| - 1], total) +
      [Store(Local(uids[|uids| - 1]), Argument(|uids| - 1, total, |uids| - 1, false))]
  }

  /** A whole function; its labels start again from 0. */
  function LowerFunction(name: nat, parameters: seq<nat>, body: seq<H.Stmt>): seq<Instr> {
    [Instr(START_FUNC, Nothing, Function(name))] + LowerParameters(parameters, |parameters|)
    + LowerAll(body, 0, 0, 0).code + [Instr(END_FUNC, Nothing, Function(name))]
  }
}
