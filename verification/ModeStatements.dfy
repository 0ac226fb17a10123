/** Lowered statements and functions are typed: between two statements no register matters. */
module ModeStatements {
  import opened Words
  import opened Lir
  import opened Lowering
  import opened Modes
  import opened ModeLowering
  import H = Hir

  /** The state between two statements. */
  const BETWEEN: State := State(Free, [])

  // ----- The programs it is claimed for -----

  /** The arithmetic of a statement's expressions can be typed. */
  ghost predicate StmtArithmetic(s: H.Stmt)
    decreases s
  {
    match s
    case Skip => true
    case Block(body) => forall i :: 0 <= i < |body| ==> StmtArithmetic(body[i])
    case Declare(_, initial) => initial.Some? ==> ArithmeticOk(initial.value)
    case Assign(_, value) => ArithmeticOk(value)
    case CallStmt(callee, arguments) => ArithmeticOk(H.Call(callee, arguments))
    case If(condition, body, otherwise) =>
      && ArithmeticOk(condition)
      && (forall i :: 0 <= i < |body| ==> StmtArithmetic(body[i]))
      && (forall i :: 0 <= i < |otherwise| ==> StmtArithmetic(otherwise[i]))
    case While(condition, body, _) =>
      ArithmeticOk(condition) && forall i :: 0 <= i < |body| ==> StmtArithmetic(body[i])
    case For(_, initializer, condition, increment, _, body) =>
      && (initializer.Some? ==> ArithmeticOk(initializer.value)) && ArithmeticOk(condition) && ArithmeticOk(increment)
      && (forall i :: 0 <= i < |body| ==> StmtArithmetic(body[i]))
    case Break => true
    case Continue => true
    case Return(result) => result.Some? ==> ArithmeticOk(result.value)
  }

  ghost predicate StmtTypable(s: H.Stmt, inLoop: bool, terms: Terms) {
    TameStmt(s, inLoop, terms.empty) && (terms.checked ==> StmtArithmetic(s))
  }

  ghost predicate StmtsTypable(ss: seq<H.Stmt>, inLoop: bool, terms: Terms) {
    forall i :: 0 <= i < |ss| ==> StmtTypable(ss[i], inLoop, terms)
  }

  // ----- Single instructions between statements -----

  /** The label may be jumped to between statements. */
  predicate Open(labels: Labelling, id: nat) {
    id in labels && labels[id] == BETWEEN
  }

  /** An instruction that leaves everything as it is between statements. */
  ghost predicate Idle(i: Instr, labels: Labelling) {
    || (i.op.START_BLOCK? && i.src.Nothing?)
    || (i.op.END_BLOCK? && !i.src.Register?)
    || (i.op.NEW_LABEL? && i.src.Label? && Open(labels, i.src.id))
    || (i.op.JMP? && i.dst.Label? && Open(labels, i.dst.id) && (i.src.Nothing? || i.src == T1))
    || (i.op.STORE? && i.dst.Local? && i.src.Nothing?)
  }

  lemma IdleFits(i: Instr, labels: Labelling, terms: Terms)
    requires Idle(i, labels)
    ensures Fits(i, BETWEEN, BETWEEN, labels, terms)
  {
    hide PopTo, PushOf, Operate, Compare, ChangeFirst, LoadFirst, LoadSecond, StoreLocal, Place;
    LeReflexive(BETWEEN);
  }

  lemma {:induction false} IdleFlows(code: seq<Instr>, labels: Labelling, terms: Terms)
    requires forall k :: 0 <= k < |code| ==> Idle(code[k], labels)
    ensures Flows(code, BETWEEN, BETWEEN, labels, terms)
    decreases |code|
  {
    hide Flows, Fits, Idle;
    if code == [] {
      FlowsNone(BETWEEN, labels, terms);
    } else {
      IdleFits(code[0], labels, terms);
      FlowsOne(code[0], BETWEEN, BETWEEN, labels, terms);
      IdleFlows(code[1..], labels, terms);
      FlowsBoth([code[0]], code[1..], BETWEEN, BETWEEN, BETWEEN, labels, terms);
      assert [code[0]] + code[1..] == code;
    }
  }

  // ----- Pieces of statements -----

  /** A value stored in a local. */
  lemma {:induction false} StoredFlows(e: H.Expr, uid: nat, n: nat, terms: Terms) returns (labels: Labelling)
    requires Typable(e, terms)
    ensures var x := LowerStored(e, uid, n); CodeFlows(x.code, n, x.next, BETWEEN, BETWEEN, labels, terms)
  {
    hide Flows, Typable, Numbered, LowerExpr, ExprKind;
    var x := LowerExpr(e, n);
    var k := ExprKind(e);
    labels := LoadedFlows(e, n, BETWEEN, terms);
    StoreFits(uid, k, labels, terms);
    FlowsOne(Store(Local(uid), T1), Holding(BETWEEN, k), BETWEEN, labels, terms);
    FlowsBoth(x.code + [Load(T1, x.operand)], [Store(Local(uid), T1)], BETWEEN, Holding(BETWEEN, k), BETWEEN, labels,
              terms);
    Snoc(x.code, Load(T1, x.operand), Store(Local(uid), T1));
  }

  lemma StoreFits(uid: nat, k: Kind, labels: Labelling, terms: Terms)
    ensures Fits(Store(Local(uid), T1), Holding(BETWEEN, k), BETWEEN, labels, terms)
  {
    hide LoadFirst, LoadSecond, Place, PopTo, Operate, Compare, PushOf;
    LeReflexive(BETWEEN);
  }

  /** A condition and the jump that looks at it. */
  function Tested(e: H.Expr, n: nat, jump: Instr): Piece {
    var x := LowerExpr(e, n);
    Piece(x.code + [Load(T1, x.operand), jump], x.next)
  }

  lemma {:induction false} TestedFlows(e: H.Expr, n: nat, jump: Instr, id: nat, outer: Labelling, terms: Terms)
    returns (labels: Labelling)
    requires Typable(e, terms) && (jump == JumpTrue(id) || jump == JumpFalse(id))
    requires Open(outer, id) && Numbered(outer, 0, n)
    ensures var x := Tested(e, n, jump);
      Flows(x.code, BETWEEN, BETWEEN, outer + labels, terms) && Numbered(labels, n, x.next) && n <= x.next
  {
    hide Flows, Typable, Numbered, LowerExpr, ExprKind;
    var x := LowerExpr(e, n);
    var k := ExprKind(e);
    labels := LoadedFlows(e, n, BETWEEN, terms);
    var all := outer + labels;
    Apart2(outer, labels, n, x.next);
    FlowsMore(x.code + [Load(T1, x.operand)], BETWEEN, Holding(BETWEEN, k), labels, all, terms);
    BranchHere(jump, id, k, all, terms);
    FlowsOne(jump, Holding(BETWEEN, k), BETWEEN, all, terms);
    FlowsBoth(x.code + [Load(T1, x.operand)], [jump], BETWEEN, Holding(BETWEEN, k), BETWEEN, all, terms);
    Snoc(x.code, Load(T1, x.operand), jump);
  }

  lemma BranchHere(jump: Instr, id: nat, k: Kind, labels: Labelling, terms: Terms)
    requires (jump == JumpTrue(id) || jump == JumpFalse(id)) && Open(labels, id)
    ensures Fits(jump, Holding(BETWEEN, k), BETWEEN, labels, terms)
  {
    hide After;
    LeReflexive(BETWEEN);
  }

  /** New labels do not hide old ones. */
  lemma Apart2(outer: Labelling, labels: Labelling, n: nat, next: nat)
    requires Numbered(outer, 0, n) && Numbered(labels, n, next)
    ensures Extends(outer, outer + labels) && Extends(labels, outer + labels)
    ensures n <= next ==> Numbered(outer + labels, 0, next)
    ensures forall id: nat :: Open(outer, id) ==> Open(outer + labels, id)
  {
  }

  /** Code of a statement: its new labels are numbered from n on, and it may jump to outer ones. */
  ghost predicate StmtCode(p: Piece, n: nat, outer: Labelling, labels: Labelling, terms: Terms) {
    Flows(p.code, BETWEEN, BETWEEN, outer + labels, terms) && Numbered(labels, n, p.next) && n <= p.next
  }

  lemma IdleMore(code: seq<Instr>, outer: Labelling, labels: Labelling, n: nat, next: nat)
    requires Numbered(outer, 0, n) && Numbered(labels, n, next)
    requires forall k :: 0 <= k < |code| ==> Idle(code[k], outer)
    ensures forall k :: 0 <= k < |code| ==> Idle(code[k], outer + labels)
  {
    Apart2(outer, labels, n, next);
  }

  /** Instructions that leave everything as it is may stand around any piece. */
  lemma Around(before: seq<Instr>, a: Piece, after: seq<Instr>, n: nat, outer: Labelling, labels: Labelling,
               terms: Terms)
    requires StmtCode(a, n, outer, labels, terms) && Numbered(outer, 0, n)
    requires forall k :: 0 <= k < |before| ==> Idle(before[k], outer)
    requires forall k :: 0 <= k < |after| ==> Idle(after[k], outer)
    ensures StmtCode(Piece(before + a.code + after, a.next), n, outer, labels, terms)
  {
    hide Flows, Idle, Numbered;
    IdleMore(before, outer, labels, n, a.next);
    IdleMore(after, outer, labels, n, a.next);
    IdleFlows(before, outer + labels, terms);
    IdleFlows(after, outer + labels, terms);
    FlowsBoth(before, a.code, BETWEEN, BETWEEN, BETWEEN, outer + labels, terms);
    FlowsBoth(before + a.code, after, BETWEEN, BETWEEN, BETWEEN, outer + labels, terms);
  }

  /** Two neighbouring pieces of a statement, each with its own new labels, and what follows them. */
  lemma Joined(a: Piece, b: Piece, after: seq<Instr>, n: nat, outer: Labelling, la: Labelling, lb: Labelling,
               terms: Terms)
    requires StmtCode(a, n, outer, la, terms) && StmtCode(b, a.next, outer, lb, terms) && Numbered(outer, 0, n)
    requires forall k :: 0 <= k < |after| ==> Idle(after[k], outer)
    ensures StmtCode(Piece(a.code + b.code + after, b.next), n, outer, la + lb, terms)
  {
    hide Flows, Idle;
    FlowsMore(a.code, BETWEEN, BETWEEN, outer + la, outer + (la + lb), terms);
    FlowsMore(b.code, BETWEEN, BETWEEN, outer + lb, outer + (la + lb), terms);
    FlowsBoth(a.code, b.code, BETWEEN, BETWEEN, BETWEEN, outer + (la + lb), terms);
    Around([], Piece(a.code + b.code, b.next), after, n, outer, la + lb, terms);
    assert [] + (a.code + b.code) + after == a.code + b.code + after;
  }

  /** The labels a statement hands out first, all for jumps between statements. */
  function Own(n: nat, count: nat): Labelling {
    if count == 0 then map[] else Own(n, count - 1)[n + count - 1 := BETWEEN]
  }

  lemma {:induction false} InOwn(n: nat, count: nat, id: nat)
    ensures id in Own(n, count) <==> n <= id < n + count
    ensures id in Own(n, count) ==> Own(n, count)[id] == BETWEEN
    decreases count
  {
    if count > 0 {
      InOwn(n, count - 1, id);
    }
  }

  lemma OwnLabels(outer: Labelling, n: nat, count: nat)
    requires Numbered(outer, 0, n)
    ensures Numbered(outer + Own(n, count), 0, n + count)
    ensures forall id: nat :: Open(outer, id) || n <= id < n + count ==> Open(outer + Own(n, count), id)
  {
    hide Own;
    forall id: nat
      ensures id in Own(n, count) <==> n <= id < n + count
      ensures id in Own(n, count) ==> Own(n, count)[id] == BETWEEN
    {
      InOwn(n, count, id);
    }
  }

  lemma Owned(p: Piece, n: nat, count: nat, outer: Labelling, labels: Labelling, terms: Terms)
    requires StmtCode(p, n + count, outer + Own(n, count), labels, terms)
    ensures StmtCode(p, n, outer, Own(n, count) + labels, terms)
  {
    hide Flows, Own;
    forall id: nat
      ensures id in Own(n, count) <==> n <= id < n + count
    {
      InOwn(n, count, id);
    }
    assert outer + Own(n, count) + labels == outer + (Own(n, count) + labels);
  }

  /** A piece with labels of its own only. */
  lemma Alone(code: seq<Instr>, n: nat, next: nat, outer: Labelling, labels: Labelling, terms: Terms)
    requires CodeFlows(code, n, next, BETWEEN, BETWEEN, labels, terms) && Numbered(outer, 0, n)
    ensures StmtCode(Piece(code, next), n, outer, labels, terms)
  {
    hide Flows, Numbered;
    Apart2(outer, labels, n, next);
    FlowsMore(code, BETWEEN, BETWEEN, labels, outer + labels, terms);
  }

  lemma Idles(code: seq<Instr>, n: nat, outer: Labelling, terms: Terms)
    requires Numbered(outer, 0, n)
    requires forall k :: 0 <= k < |code| ==> Idle(code[k], outer)
    ensures StmtCode(Piece(code, n), n, outer, map[], terms)
  {
    hide Flows, Idle;
    assert outer + map[] == outer;
    IdleFlows(code, outer, terms);
  }

  // ----- Statements -----

  ghost predicate Targets(inLoop: bool, breakLabel: nat, continueLabel: nat, outer: Labelling) {
    inLoop ==> Open(outer, breakLabel) && Open(outer, continueLabel)
  }

  lemma {:induction false} StmtFlows(s: H.Stmt, inLoop: bool, n: nat, breakLabel: nat, continueLabel: nat,
                                     outer: Labelling, terms: Terms)
    returns (labels: Labelling)
    requires StmtTypable(s, inLoop, terms) && Numbered(outer, 0, n)
    requires Targets(inLoop, breakLabel, continueLabel, outer)
    ensures StmtCode(LowerStmt(s, n, breakLabel, continueLabel), n, outer, labels, terms)
    decreases s, 3
  {
    hide StmtCode, LowerExpr, LowerBlock, LowerStored, Numbered, Typable, Flows, AdvanceTail;
    ValuesTypable(s, inLoop, terms);
    match s
    case Skip =>
      labels := map[];
      Idles([], n, outer, terms);
    case Block(body) => labels := BlockFlows(body, inLoop, n, breakLabel, continueLabel, outer, terms);
    case Declare(uid, initial) =>
      if initial.None? {
        labels := map[];
        Idles([Store(Local(uid), Nothing)], n, outer, terms);
      } else {
        labels := StoredAlone(initial.value, uid, n, outer, terms);
      }
    case Assign(uid, value) => labels := StoredAlone(value, uid, n, outer, terms);
    case CallStmt(callee, arguments) =>
      var e := H.Call(callee, arguments);
      labels := CallFlows(e, n, BETWEEN, false, terms);
      Alone(LowerExpr(e, n).code, n, LowerExpr(e, n).next, outer, labels, terms);
    case If(condition, body, otherwise) =>
      labels := IfFlows(s, inLoop, n, breakLabel, continueLabel, outer, terms);
    case While(condition, body, doFirst) =>
      labels := WhileFlows(s, inLoop, n, breakLabel, continueLabel, outer, terms);
    case For(_, _, _, _, _, _) => labels := ForFlows(s, inLoop, n, breakLabel, continueLabel, outer, terms);
    case Break =>
      labels := map[];
      Idles([EndBlock(true), Jump(breakLabel)], n, outer, terms);
    case Continue =>
      labels := map[];
      Idles([EndBlock(true), Jump(continueLabel)], n, outer, terms);
    case Return(result) => labels := ReturnFlows(result, n, outer, terms);
  }

  /** The expressions and bodies of a statement are as the statement is. */
  lemma ValuesTypable(s: H.Stmt, inLoop: bool, terms: Terms)
    requires StmtTypable(s, inLoop, terms)
    ensures s.Block? ==> StmtsTypable(s.body, inLoop, terms)
    ensures s.Declare? && s.initial.Some? ==> Typable(s.initial.value, terms)
    ensures s.Assign? ==> Typable(s.value, terms)
    ensures s.CallStmt? ==> Typable(H.Call(s.callee, s.arguments), terms)
    ensures s.If? ==> Typable(s.condition, terms) && StmtsTypable(s.body, inLoop, terms)
    ensures s.If? ==> StmtsTypable(s.otherwise, inLoop, terms)
    ensures s.While? ==> Typable(s.condition, terms) && StmtsTypable(s.body, true, terms)
    ensures s.For? ==> Typable(s.condition, terms) && StmtsTypable(s.body, true, terms)
    ensures s.For? ==> Typable(s.increment, terms)
    ensures s.For? && s.initializer.Some? ==> Typable(s.initializer.value, terms)
    ensures s.For? && s.initializer.None? ==> s.counter in terms.empty
    ensures s.Return? && s.result.Some? ==> Typable(s.result.value, terms)
  {
    hide TameExpr, ArithmeticOk;
  }

  lemma StoredAlone(e: H.Expr, uid: nat, n: nat, outer: Labelling, terms: Terms) returns (labels: Labelling)
    requires Typable(e, terms) && Numbered(outer, 0, n)
    ensures StmtCode(LowerStored(e, uid, n), n, outer, labels, terms)
  {
    hide Flows, Typable, Numbered, LowerStored;
    labels := StoredFlows(e, uid, n, terms);
    Alone(LowerStored(e, uid, n).code, n, LowerStored(e, uid, n).next, outer, labels, terms);
  }

  lemma ReturnFlows(result: Option<H.Expr>, n: nat, outer: Labelling, terms: Terms) returns (labels: Labelling)
    requires Numbered(outer, 0, n) && (result.Some? ==> Typable(result.value, terms))
    ensures var x := LowerInitializer(result, n);
      StmtCode(Piece(x.code + [Instr(RETURN, Nothing, x.operand)], x.next), n, outer, labels, terms)
  {
    hide Flows, Typable, Numbered, LowerExpr, Evaluated;
    var x := LowerInitializer(result, n);
    var i := Instr(RETURN, Nothing, x.operand);
    if result.None? {
      labels := map[];
      NoLabels(n, n);
      ReturnNothing(terms);
      FlowsOne(i, BETWEEN, BETWEEN, labels, terms);
      assert x.code + [i] == [i];
    } else {
      labels := ExprFlows(result.value, n, BETWEEN, terms);
      ReturnFits(result.value, n, labels, terms);
      FlowsOne(i, Evaluated(result.value, BETWEEN), BETWEEN, labels, terms);
      FlowsBoth(x.code, [i], BETWEEN, Evaluated(result.value, BETWEEN), BETWEEN, labels, terms);
    }
    Alone(x.code + [i], n, x.next, outer, labels, terms);
  }

  lemma ReturnNothing(terms: Terms)
    ensures Fits(Instr(RETURN, Nothing, Nothing), BETWEEN, BETWEEN, map[], terms)
  {
    hide After, Le;
  }

  lemma ReturnFits(e: H.Expr, n: nat, labels: Labelling, terms: Terms)
    ensures Fits(Instr(RETURN, Nothing, LowerExpr(e, n).operand), Evaluated(e, BETWEEN), BETWEEN, labels, terms)
  {
    hide After, ExprKind, LowerExpr;
    OperandOf(e, n);
  }

  lemma {:induction false} IfFlows(s: H.Stmt, inLoop: bool, n: nat, breakLabel: nat, continueLabel: nat,
                                   outer: Labelling, terms: Terms)
    returns (labels: Labelling)
    requires s.If? && StmtTypable(s, inLoop, terms) && Numbered(outer, 0, n)
    requires Targets(inLoop, breakLabel, continueLabel, outer)
    ensures StmtCode(LowerStmt(s, n, breakLabel, continueLabel), n, outer, labels, terms)
    decreases s, 0
  {
    hide StmtCode, LowerExpr, LowerBlock, Numbered, Typable, StmtTypable, StmtsTypable, Own;
    ValuesTypable(s, inLoop, terms);
    var count := if s.otherwise == [] then 1 else 2;
    var inner := outer + Own(n, count);
    OwnLabels(outer, n, count);
    var c := Tested(s.condition, n + count, JumpFalse(n));
    var b := LowerBlock(s.body, c.next, breakLabel, continueLabel);
    var lc := TestedPiece(s.condition, n + count, JumpFalse(n), n, inner, terms);
    NumberedNext(inner, n + count, c, lc, terms);
    var lb := BlockFlows(s.body, inLoop, c.next, breakLabel, continueLabel, inner, terms);
    if s.otherwise == [] {
      Joined(c, b, [NewLabel(n)], n + count, inner, lc, lb, terms);
      labels := Own(n, count) + (lc + lb);
      Owned(Piece(c.code + b.code + [NewLabel(n)], b.next), n, count, outer, lc + lb, terms);
    } else {
      var front := Piece(c.code + b.code + [Jump(n + 1), NewLabel(n)], b.next);
      Joined(c, b, [Jump(n + 1), NewLabel(n)], n + count, inner, lc, lb, terms);
      var o := LowerBlock(s.otherwise, b.next, breakLabel, continueLabel);
      NumberedNext(inner, n + count, front, lc + lb, terms);
      var lo := BlockFlows(s.otherwise, inLoop, b.next, breakLabel, continueLabel, inner, terms);
      Joined(front, o, [NewLabel(n + 1)], n + count, inner, lc + lb, lo, terms);
      labels := Own(n, count) + (lc + lb + lo);
      Owned(Piece(front.code + o.code + [NewLabel(n + 1)], o.next), n, count, outer, lc + lb + lo, terms);
    }
  }

  lemma TestedPiece(e: H.Expr, n: nat, jump: Instr, id: nat, outer: Labelling, terms: Terms)
    returns (labels: Labelling)
    requires Typable(e, terms) && (jump == JumpTrue(id) || jump == JumpFalse(id))
    requires Open(outer, id) && Numbered(outer, 0, n)
    ensures StmtCode(Tested(e, n, jump), n, outer, labels, terms)
  {
    hide Tested, Typable, Flows, Numbered;
    labels := TestedFlows(e, n, jump, id, outer, terms);
  }

  lemma NumberedNext(outer: Labelling, n: nat, p: Piece, labels: Labelling, terms: Terms)
    requires Numbered(outer, 0, n) && StmtCode(p, n, outer, labels, terms)
    ensures Numbered(outer, 0, p.next) && n <= p.next
  {
    hide Flows;
  }

  lemma {:induction false} WhileFlows(s: H.Stmt, inLoop: bool, n: nat, breakLabel: nat, continueLabel: nat,
                                      outer: Labelling, terms: Terms)
    returns (labels: Labelling)
    requires s.While? && StmtTypable(s, inLoop, terms) && Numbered(outer, 0, n)
    ensures StmtCode(LowerStmt(s, n, breakLabel, continueLabel), n, outer, labels, terms)
    decreases s, 0
  {
    hide StmtCode, LowerExpr, LowerBlock, Numbered, Typable, StmtTypable, StmtsTypable, Own;
    ValuesTypable(s, inLoop, terms);
    var inner := outer + Own(n, 3);
    OwnLabels(outer, n, 3);
    if s.doFirst {
      var b := LowerBlock(s.body, n + 3, n + 2, n);
      var lb := BlockFlows(s.body, true, n + 3, n + 2, n, inner, terms);
      var front := Piece([NewLabel(n + 1)] + b.code + [NewLabel(n)], b.next);
      Around([NewLabel(n + 1)], b, [NewLabel(n)], n + 3, inner, lb, terms);
      NumberedNext(inner, n + 3, front, lb, terms);
      var c := Tested(s.condition, b.next, JumpTrue(n + 1));
      var lc := TestedPiece(s.condition, b.next, JumpTrue(n + 1), n + 1, inner, terms);
      Joined(front, c, [NewLabel(n + 2)], n + 3, inner, lb, lc, terms);
      DoShape(s, n, breakLabel, continueLabel);
      labels := Own(n, 3) + (lb + lc);
      Owned(Piece(front.code + c.code + [NewLabel(n + 2)], c.next), n, 3, outer, lb + lc, terms);
    } else {
      var c := Tested(s.condition, n + 3, JumpFalse(n + 2));
      var lc := TestedPiece(s.condition, n + 3, JumpFalse(n + 2), n + 2, inner, terms);
      var front := Piece([NewLabel(n)] + c.code + [NewLabel(n + 1)], c.next);
      Around([NewLabel(n)], c, [NewLabel(n + 1)], n + 3, inner, lc, terms);
      NumberedNext(inner, n + 3, front, lc, terms);
      var b := LowerBlock(s.body, c.next, n + 2, n);
      var lb := BlockFlows(s.body, true, c.next, n + 2, n, inner, terms);
      var back := [Instr(JMP, Label(n), T1), NewLabel(n + 2)];
      Joined(front, b, back, n + 3, inner, lc, lb, terms);
      WhileShape(s, n, breakLabel, continueLabel);
      labels := Own(n, 3) + (lc + lb);
      Owned(Piece(front.code + b.code + back, b.next), n, 3, outer, lc + lb, terms);
    }
  }

  lemma DoShape(s: H.Stmt, n: nat, breakLabel: nat, continueLabel: nat)
    requires s.While? && s.doFirst
    ensures var b := LowerBlock(s.body, n + 3, n + 2, n);
      var c := Tested(s.condition, b.next, JumpTrue(n + 1));
      LowerStmt(s, n, breakLabel, continueLabel)
        == Piece([NewLabel(n + 1)] + b.code + [NewLabel(n)] + c.code + [NewLabel(n + 2)], c.next)
  {
    hide LowerExpr, LowerBlock, NewLabel, JumpTrue;
    var b := LowerBlock(s.body, n + 3, n + 2, n);
    var c := LowerExpr(s.condition, b.next);
    Regroup([NewLabel(n + 1)] + b.code + [NewLabel(n)], c.code, Load(T1, c.operand), JumpTrue(n + 1), NewLabel(n + 2));
  }

  lemma Regroup(a: seq<Instr>, b: seq<Instr>, i: Instr, j: Instr, k: Instr)
    ensures a + (b + [i, j]) + [k] == a + b + [i, j, k]
  {
  }

  lemma WhileShape(s: H.Stmt, n: nat, breakLabel: nat, continueLabel: nat)
    requires s.While? && !s.doFirst
    ensures var c := Tested(s.condition, n + 3, JumpFalse(n + 2));
      var b := LowerBlock(s.body, c.next, n + 2, n);
      LowerStmt(s, n, breakLabel, continueLabel)
        == Piece([NewLabel(n)] + c.code + [NewLabel(n + 1)] + b.code + [Instr(JMP, Label(n), T1), NewLabel(n + 2)],
                 b.next)
  {
    hide LowerExpr, LowerBlock, NewLabel, JumpFalse;
    var c := LowerExpr(s.condition, n + 3);
    Regroup([NewLabel(n)], c.code, Load(T1, c.operand), JumpFalse(n + 2), NewLabel(n + 1));
  }

  // ----- The for loop -----

  /** The counter is advanced by a value that is worked out on the stack. */
  function Advancing(s: H.Stmt, n: nat): Piece
    requires s.For?
  {
    var step := LowerPushed(s.increment, n);
    Piece([Load(T1, Local(s.counter)), Push(T1)] + step.code
          + [Pop(T2), Pop(T1), Instr(if s.decrement then SUB else ADD, T1, T2), Store(Local(s.counter), T1)], step.next)
  }

  lemma {:induction false} AdvancingFlows(s: H.Stmt, n: nat, terms: Terms) returns (labels: Labelling)
    requires s.For? && Typable(s.increment, terms)
    ensures var x := Advancing(s, n); CodeFlows(x.code, n, x.next, BETWEEN, BETWEEN, labels, terms)
  {
    hide Flows, Typable, Numbered, LowerPushed, ExprKind, OperationKind, OperationOk;
    var step := LowerPushed(s.increment, n);
    var k := ExprKind(s.increment);
    var op := if s.decrement then H.Minus else H.Plus;
    var counter := PushedOn(BETWEEN, Fresh);
    labels := PushedFlows(s.increment, n, counter, terms);
    CounterFlows(s.counter, labels, terms);
    AdvanceOk(op, k);
    AdvancedFlows(op, s.counter, k, labels, terms);
    var front := [Load(T1, Local(s.counter)), Push(T1)];
    FlowsBoth(front, step.code, BETWEEN, counter, PushedOn(counter, k), labels, terms);
    FlowsBoth(front + step.code, [Pop(T2), Pop(T1), Instr(MathOpcode(op), T1, T2), Store(Local(s.counter), T1)],
              BETWEEN, PushedOn(counter, k), BETWEEN, labels, terms);
  }

  lemma CounterFlows(uid: nat, labels: Labelling, terms: Terms)
    ensures Flows([Load(T1, Local(uid)), Push(T1)], BETWEEN, PushedOn(BETWEEN, Fresh), labels, terms)
  {
    hide Flows, Fits;
    LoadQuiet(Local(uid), BETWEEN, labels, terms);
    PushFits(BETWEEN, Fresh, labels, terms);
    FlowsTwo(Load(T1, Local(uid)), Push(T1), BETWEEN, Holding(BETWEEN, Fresh), PushedOn(BETWEEN, Fresh), labels,
             terms);
  }

  lemma AdvanceOk(op: H.MathToken, k: Kind)
    requires op == H.Plus || op == H.Minus
    ensures OperationOk(MathOpcode(op), Fresh, k)
  {
  }

  lemma AdvancedFlows(op: H.MathToken, uid: nat, k: Kind, labels: Labelling, terms: Terms)
    requires OperationOk(MathOpcode(op), Fresh, k)
    ensures Flows([Pop(T2), Pop(T1), Instr(MathOpcode(op), T1, T2), Store(Local(uid), T1)],
                  PushedOn(PushedOn(BETWEEN, Fresh), k), BETWEEN, labels, terms)
  {
    hide Flows, OperationKind, OperationOk, Fits;
    var r := OperationKind(MathOpcode(op), Fresh, k);
    var s0, s1 := State(Pushed, BETWEEN.below + [Fresh] + [k]), State(Second(k), BETWEEN.below + [Fresh]);
    var s2 := With(BETWEEN, Both(Fresh, k));
    OperationSteps(op, BETWEEN, Fresh, k, labels, terms);
    StoreFits(uid, r, labels, terms);
    FlowsTwo(Pop(T2), Pop(T1), s0, s1, s2, labels, terms);
    FlowsTwo(Instr(MathOpcode(op), T1, T2), Store(Local(uid), T1), s2, Holding(BETWEEN, r), BETWEEN, labels, terms);
    FlowsBoth([Pop(T2), Pop(T1)], [Instr(MathOpcode(op), T1, T2), Store(Local(uid), T1)], s0, s2, BETWEEN, labels,
              terms);
    assert [Pop(T2), Pop(T1)] + [Instr(MathOpcode(op), T1, T2), Store(Local(uid), T1)]
        == [Pop(T2), Pop(T1), Instr(MathOpcode(op), T1, T2), Store(Local(uid), T1)];
  }

  /** The counter of a `for` gets its first value, or the empty one. */
  function Starting(s: H.Stmt, n: nat): Piece
    requires s.For?
  {
    var x := LowerInitializer(s.initializer, n);
    Piece(x.code + [Load(T1, x.operand), Store(Local(s.counter), T1)], x.next)
  }

  lemma StartingFlows(s: H.Stmt, n: nat, outer: Labelling, terms: Terms) returns (labels: Labelling)
    requires s.For? && Numbered(outer, 0, n)
    requires if s.initializer.Some? then Typable(s.initializer.value, terms) else s.counter in terms.empty
    ensures StmtCode(Starting(s, n), n, outer, labels, terms)
  {
    hide Flows, Typable, Numbered, LowerExpr, StmtCode;
    if s.initializer.Some? {
      labels := StoredAlone(s.initializer.value, s.counter, n, outer, terms);
    } else {
      labels := map[];
      NoLabels(n, n);
      EmptyFlows(s.counter, labels, terms);
      Alone([Load(T1, Nothing), Store(Local(s.counter), T1)], n, n, outer, labels, terms);
      assert [] + [Load(T1, Nothing), Store(Local(s.counter), T1)] == [Load(T1, Nothing), Store(Local(s.counter), T1)];
    }
  }

  lemma EmptyFlows(uid: nat, labels: Labelling, terms: Terms)
    requires uid in terms.empty
    ensures Flows([Load(T1, Nothing), Store(Local(uid), T1)], BETWEEN, BETWEEN, labels, terms)
  {
    hide Flows, Fits;
    EmptyStored(uid, labels, terms);
    FlowsTwo(Load(T1, Nothing), Store(Local(uid), T1), BETWEEN, With(BETWEEN, Zeroed), BETWEEN, labels, terms);
  }

  lemma EmptyStored(uid: nat, labels: Labelling, terms: Terms)
    requires uid in terms.empty
    ensures Fits(Load(T1, Nothing), BETWEEN, With(BETWEEN, Zeroed), labels, terms)
    ensures Fits(Store(Local(uid), T1), With(BETWEEN, Zeroed), BETWEEN, labels, terms)
  {
    hide LoadSecond, Place, PopTo, Operate, Compare, PushOf;
    LeReflexive(BETWEEN);
    LeReflexive(With(BETWEEN, Zeroed));
  }

  lemma {:induction false} ForFlows(s: H.Stmt, inLoop: bool, n: nat, breakLabel: nat, continueLabel: nat,
                                    outer: Labelling, terms: Terms)
    returns (labels: Labelling)
    requires s.For? && StmtTypable(s, inLoop, terms) && Numbered(outer, 0, n)
    ensures StmtCode(LowerStmt(s, n, breakLabel, continueLabel), n, outer, labels, terms)
    decreases s, 0
  {
    hide StmtCode, LowerExpr, LowerBlock, LowerStored, Numbered, Typable, StmtTypable, StmtsTypable, Own, Tested,
      Advancing, Starting, LowerStmt;
    ValuesTypable(s, inLoop, terms);
    var inner := outer + Own(n, 3);
    OwnLabels(outer, n, 3);
    var i := Starting(s, n + 3);
    var li := StartingFlows(s, n + 3, inner, terms);
    var p0 := Piece([StartBlock()] + i.code + [NewLabel(n)], i.next);
    Around([StartBlock()], i, [NewLabel(n)], n + 3, inner, li, terms);
    NumberedNext(inner, n + 3, p0, li, terms);
    var c := Tested(s.condition, i.next, JumpFalse(n + 2));
    var lc := TestedPiece(s.condition, i.next, JumpFalse(n + 2), n + 2, inner, terms);
    var p1 := Piece(p0.code + c.code + [], c.next);
    Joined(p0, c, [], n + 3, inner, li, lc, terms);
    NumberedNext(inner, n + 3, p1, li + lc, terms);
    var b := LowerBlock(s.body, c.next, n + 2, n + 1);
    var lb := BlockFlows(s.body, true, c.next, n + 2, n + 1, inner, terms);
    var p2 := Piece(p1.code + b.code + [NewLabel(n + 1)], b.next);
    Joined(p1, b, [NewLabel(n + 1)], n + 3, inner, li + lc, lb, terms);
    NumberedNext(inner, n + 3, p2, li + lc + lb, terms);
    var step := Advancing(s, b.next);
    var ls := AdvancingAlone(s, b.next, inner, terms);
    var back := [Jump(n), NewLabel(n + 2), Instr(END_BLOCK, Nothing, Nothing)];
    Joined(p2, step, back, n + 3, inner, li + lc + lb, ls, terms);
    ForShape(s, n, breakLabel, continueLabel);
    labels := Own(n, 3) + (li + lc + lb + ls);
    Owned(Piece(p2.code + step.code + back, step.next), n, 3, outer, li + lc + lb + ls, terms);
  }

  lemma AdvancingAlone(s: H.Stmt, n: nat, outer: Labelling, terms: Terms) returns (labels: Labelling)
    requires s.For? && Typable(s.increment, terms) && Numbered(outer, 0, n)
    ensures StmtCode(Advancing(s, n), n, outer, labels, terms)
  {
    hide Flows, Typable, Numbered, Advancing;
    labels := AdvancingFlows(s, n, terms);
    Alone(Advancing(s, n).code, n, Advancing(s, n).next, outer, labels, terms);
  }

  lemma ForShape(s: H.Stmt, n: nat, breakLabel: nat, continueLabel: nat)
    requires s.For?
    ensures var i := Starting(s, n + 3);
      var c := Tested(s.condition, i.next, JumpFalse(n + 2));
      var b := LowerBlock(s.body, c.next, n + 2, n + 1);
      var step := Advancing(s, b.next);
      LowerStmt(s, n, breakLabel, continueLabel)
        == Piece([StartBlock()] + i.code + [NewLabel(n)] + c.code + [] + b.code + [NewLabel(n + 1)] + step.code
                 + [Jump(n), NewLabel(n + 2), Instr(END_BLOCK, Nothing, Nothing)], step.next)
  {
    hide LowerExpr, LowerInitializer, LowerBlock, LowerPushed, NewLabel, JumpFalse, Jump, StartBlock;
    var x := LowerInitializer(s.initializer, n + 3);
    var c := LowerExpr(s.condition, x.next);
    var b := LowerBlock(s.body, c.next, n + 2, n + 1);
    var step := LowerPushed(s.increment, b.next);
    var op := if s.decrement then SUB else ADD;
    ForFrontShape([StartBlock()], x.code, Load(T1, x.operand), Store(Local(s.counter), T1), NewLabel(n), c.code,
                  [Load(T1, c.operand), JumpFalse(n + 2)]);
    ForBackShape(NewLabel(n + 1), [Load(T1, Local(s.counter)), Push(T1)], step.code,
                 [Pop(T2), Pop(T1), Instr(op, T1, T2), Store(Local(s.counter), T1)], Jump(n),
                 [NewLabel(n + 2), Instr(END_BLOCK, Nothing, Nothing)],
                 [StartBlock()] + x.code + [Load(T1, x.operand), Store(Local(s.counter), T1), NewLabel(n)] + c.code
                 + [Load(T1, c.operand), JumpFalse(n + 2)] + b.code);
  }

  lemma ForFrontShape(a: seq<Instr>, x: seq<Instr>, i: Instr, j: Instr, k: Instr, c: seq<Instr>, t: seq<Instr>)
    ensures a + (x + [i, j]) + [k] + (c + t) + [] == a + x + [i, j, k] + c + t
  {
  }

  lemma ForBackShape(k: Instr, l: seq<Instr>, step: seq<Instr>, d: seq<Instr>, j: Instr, e: seq<Instr>, a: seq<Instr>)
    ensures a + [k] + (l + step + d) + ([j] + e) == a + ([k] + l) + step + (d + [j]) + e
  {
  }

  // ----- Lists of statements -----

  lemma {:induction false} BlockFlows(ss: seq<H.Stmt>, inLoop: bool, n: nat, breakLabel: nat, continueLabel: nat,
                                      outer: Labelling, terms: Terms)
    returns (labels: Labelling)
    requires StmtsTypable(ss, inLoop, terms) && Numbered(outer, 0, n)
    requires Targets(inLoop, breakLabel, continueLabel, outer)
    ensures StmtCode(LowerBlock(ss, n, breakLabel, continueLabel), n, outer, labels, terms)
    decreases ss, 1
  {
    hide StmtCode, LowerAll, Numbered, StmtsTypable, Targets;
    labels := AllFlow(ss, inLoop, n, breakLabel, continueLabel, outer, terms);
    Around([StartBlock()], LowerAll(ss, n, breakLabel, continueLabel), [EndBlock(false)], n, outer, labels, terms);
  }

  lemma {:induction false} AllFlow(ss: seq<H.Stmt>, inLoop: bool, n: nat, breakLabel: nat, continueLabel: nat,
                                   outer: Labelling, terms: Terms)
    returns (labels: Labelling)
    requires StmtsTypable(ss, inLoop, terms) && Numbered(outer, 0, n)
    requires Targets(inLoop, breakLabel, continueLabel, outer)
    ensures StmtCode(LowerAll(ss, n, breakLabel, continueLabel), n, outer, labels, terms)
    decreases ss, 0
  {
    hide StmtCode, LowerStmt, Numbered, StmtTypable, Targets;
    if ss == [] {
      labels := map[];
      Idles([], n, outer, terms);
    } else {
      var s := LowerStmt(ss[0], n, breakLabel, continueLabel);
      var la := StmtFlows(ss[0], inLoop, n, breakLabel, continueLabel, outer, terms);
      NumberedNext(outer, n, s, la, terms);
      var more := LowerAll(ss[1..], s.next, breakLabel, continueLabel);
      var lb := AllFlow(ss[1..], inLoop, s.next, breakLabel, continueLabel, outer, terms);
      Joined(s, more, [], n, outer, la, lb, terms);
      labels := la + lb;
      assert s.code + more.code + [] == s.code + more.code;
    }
  }

  // ----- Functions -----

  function Arrived(k: nat): State {
    State(Params(k), [])
  }

  lemma {:induction false} ParametersFlow(uids: seq<nat>, total: nat, terms: Terms)
    ensures Flows(LowerParameters(uids, total), Arrived(0), Arrived(|uids|), map[], terms)
    decreases |uids|
  {
    hide Flows;
    if uids == [] {
      FlowsNone(Arrived(0), map[], terms);
    } else {
      var front, k: nat := uids[..|uids| - 1], |uids| - 1;
      var i := Store(Local(uids[k]), Argument(k, total, k, false));
      ParametersFlow(front, total, terms);
      ParameterFits(i, uids[k], k, total, terms);
      FlowsOne(i, Arrived(k), Arrived(k + 1), map[], terms);
      FlowsBoth(LowerParameters(front, total), [i], Arrived(0), Arrived(k), Arrived(k + 1), map[], terms);
    }
  }

  lemma ParameterFits(i: Instr, uid: nat, k: nat, total: nat, terms: Terms)
    requires i == Store(Local(uid), Argument(k, total, k, false))
    ensures Fits(i, Arrived(k), Arrived(k + 1), map[], terms)
  {
    hide LoadFirst, LoadSecond, Place, PopTo, Operate, Compare, PushOf;
    LeReflexive(Arrived(k + 1));
  }

  /** The start of a function with its parameters. */
  lemma EntryFlows(name: nat, parameters: seq<nat>, terms: Terms)
    ensures Flows([Instr(START_FUNC, Nothing, Function(name))] + LowerParameters(parameters, |parameters|),
                  Arrived(0), BETWEEN, map[], terms)
  {
    hide Flows, LowerParameters;
    var i := Instr(START_FUNC, Nothing, Function(name));
    StartFits(name, terms);
    FlowsOne(i, Arrived(0), Arrived(0), map[], terms);
    ParametersFlow(parameters, |parameters|, terms);
    var code := [i] + LowerParameters(parameters, |parameters|);
    FlowsBoth([i], LowerParameters(parameters, |parameters|), Arrived(0), Arrived(0), Arrived(|parameters|), map[],
              terms);
    FlowsOut(code, Arrived(0), Arrived(|parameters|), BETWEEN, map[], terms);
  }

  lemma StartFits(name: nat, terms: Terms)
    ensures Fits(Instr(START_FUNC, Nothing, Function(name)), Arrived(0), Arrived(0), map[], terms)
  {
    hide Moved, PopTo, PushOf, Operate, Compare, ChangeFirst;
    LeReflexive(Arrived(0));
  }

  lemma EndFlows(name: nat, labels: Labelling, terms: Terms)
    ensures Flows([Instr(END_FUNC, Nothing, Function(name)), END], BETWEEN, BETWEEN, labels, terms)
  {
    hide Flows;
    FlowsTwo(Instr(END_FUNC, Nothing, Function(name)), END, BETWEEN, BETWEEN, BETWEEN, labels, terms);
  }

  /** The code of every function whose statements can be typed is typed. */
  lemma LoweredIsTyped(name: nat, parameters: seq<nat>, body: seq<H.Stmt>, terms: Terms)
    requires StmtsTypable(body, false, terms)
    ensures WellTyped(LowerFunction(name, parameters, body) + [END], terms)
  {
    hide StmtsTypable, LowerAll, LowerParameters, Fits;
    var front := [Instr(START_FUNC, Nothing, Function(name))] + LowerParameters(parameters, |parameters|);
    var b := LowerAll(body, 0, 0, 0);
    var back := [Instr(END_FUNC, Nothing, Function(name)), END];
    var labels := AllFlow(body, false, 0, 0, 0, map[], terms);
    EntryFlows(name, parameters, terms);
    EndFlows(name, labels, terms);
    FunctionCode(front, b.code, back, labels, terms);
    FunctionShape(front, b.code, Instr(END_FUNC, Nothing, Function(name)));
  }

  lemma FunctionShape(a: seq<Instr>, b: seq<Instr>, i: Instr)
    ensures a + b + [i, END] == a + b + [i] + [END]
  {
  }

  lemma FunctionCode(a: seq<Instr>, b: seq<Instr>, c: seq<Instr>, labels: Labelling, terms: Terms)
    requires Flows(a, Arrived(0), BETWEEN, map[], terms) && Flows(b, BETWEEN, BETWEEN, map[] + labels, terms)
    requires Flows(c, BETWEEN, BETWEEN, labels, terms)
    ensures WellTyped(a + b + c, terms)
  {
    hide Fits;
    assert map[] + labels == labels;
    FlowsMore(a, Arrived(0), BETWEEN, map[], labels, terms);
    FlowsBoth(a, b, Arrived(0), BETWEEN, BETWEEN, labels, terms);
    FlowsBoth(a + b, c, Arrived(0), BETWEEN, BETWEEN, labels, terms);
    var states :| FlowsBy(a + b + c, states, Arrived(0), BETWEEN, labels, terms);
    assert TypedFromStart(a + b + c, states, labels, terms);
  }
}
