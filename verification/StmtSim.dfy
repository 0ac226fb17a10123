/** Lowered statements do what their source does: same locals, same calls, same exit, and as many
    steps as loop turns, so a diverging source gives a diverging program. */
module StmtSim {
  import opened Words
  import opened Environment
  import opened Lir
  import opened Lowering
  import opened Runs
  import opened Steps
  import opened Fragments
  import opened ExprSim
  import H = Hir

  /** The break and continue labels in force and the positions that define them. */
  datatype Exits = Exits(breakLabel: nat, atBreak: nat, continueLabel: nat, atContinue: nat, inLoop: bool)

  ghost predicate Placed(prog: seq<Instr>, x: Exits) {
    x.inLoop ==> Defines(prog, x.atBreak, x.breakLabel) && Defines(prog, x.atContinue, x.continueLabel)
  }

  // ----- Operand slots of statements -----

  function StmtSlots(s: H.Stmt): nat
    decreases s
  {
    match s
    case Block(body) => BlockSlots(body)
    case Declare(_, initial) => OptionSlots(initial)
    case Assign(_, value) => Slots(value)
    case CallStmt(callee, arguments) => Slots(H.Call(callee, arguments))
    case If(condition, body, otherwise) => Max(Slots(condition), Max(BlockSlots(body), BlockSlots(otherwise)))
    case While(condition, body, _) => Max(Slots(condition), BlockSlots(body))
    case For(_, initializer, condition, increment, _, body) =>
      Max(Max(OptionSlots(initializer), Slots(condition)), Max(1 + PushedSlots(increment), BlockSlots(body)))
    case Return(result) => OptionSlots(result)
    case _ => 0
  }

  function OptionSlots(e: Option<H.Expr>): nat {
    if e.None? then 0 else Slots(e.value)
  }

  function BlockSlots(ss: seq<H.Stmt>): nat
    decreases ss
  {
    if ss == [] then 0 else Max(StmtSlots(ss[0]), BlockSlots(ss[1..]))
  }

  // ----- How statements end -----

  ghost predicate Came(stack: seq<Word>, m: Machine, p: nat, locals: map<nat, Word>, trace: seq<Event>) {
    m.status.Running? && m.Valid() && m.pc == p && m.stack == stack && m.locals == locals && m.trace == trace
  }

  /** After k steps the machine has ended the way the source did; out of fuel it is still running. */
  ghost predicate Ended(fuel: nat, k: nat, stack: seq<Word>, m: Machine, p: nat, x: Exits, r: H.Result) {
    match r
    case Done(outcome, locals, trace) =>
      (match outcome
       case Normal => Came(stack, m, p, locals, trace)
       case Broke => Came(stack, m, x.atBreak, locals, trace)
       case Continued => Came(stack, m, x.atContinue, locals, trace)
       case Returned(value) => m.status == Returned(value) && m.locals == locals && m.trace == trace)
    case Faulted(locals, trace) => m.status.Trapped? && m.locals == locals && m.trace == trace
    case OutOfFuel => m.status.Running? && k >= fuel
  }

  ghost predicate Start(prog: seq<Instr>, m: Machine, code: seq<Instr>, x: Exits, most: nat, low: nat, high: nat) {
    Ready(prog, m, code) && Placed(prog, x) && Room(m, most, low, high)
  }

  // ----- Tests -----

  function TestCode(c: H.Expr, n: nat, onTrue: bool, id: nat): seq<Instr> {
    var x := LowerExpr(c, n);
    x.code + [Load(T1, x.operand)] + [if onTrue then JumpTrue(id) else JumpFalse(id)]
  }

  ghost predicate TestEnded(m: Machine, m': Machine, onTrue: bool, next: nat, target: nat, r: H.Value) {
    if r.Fault? then FaultedFrom(m, m', r.trace)
    else Came(m.stack, m', if (r.v != 0) == onTrue then target else next, m.locals, r.trace)
  }

  lemma SimTest(prog: seq<Instr>, w: World, m: Machine, c: H.Expr, n: nat, onTrue: bool, id: nat, target: nat,
                low: nat, high: nat)
    returns (k: nat)
    requires H.ExprOk(c) && Room(m, Slots(c), low, high)
    requires Ready(prog, m, TestCode(c, n, onTrue, id)) && Defines(prog, target, id)
    ensures Inside(prog, w, m, k, low, high)
    ensures TestEnded(m, Run(prog, w, m, k), onTrue, m.pc + |TestCode(c, n, onTrue, id)|, target,
                      H.Eval(w, m.locals, m.trace, c))
  {
    hide Step, Run, Inside, At, UniqueLabels, H.ExprOk, LowerExpr, Slots, Load, Defines, H.Eval, JumpTrue, JumpFalse;
    var x := LowerExpr(c, n);
    AtSplit(prog, m.pc, x.code + [Load(T1, x.operand)], [if onTrue then JumpTrue(id) else JumpFalse(id)]);
    k := SimLoaded(prog, w, m, c, n, low, high);
    if H.Eval(w, m.locals, m.trace, c).Val? {
      var j := RunJumpIf(prog, w, Run(prog, w, m, k), onTrue, id, target, low, high);
      Sequence(prog, w, m, k, j, low, high);
      k := k + j;
    }
  }

  lemma RunJumpIf(prog: seq<Instr>, w: World, m: Machine, onTrue: bool, id: nat, target: nat, low: nat, high: nat)
    returns (k: nat)
    requires Ready(prog, m, [if onTrue then JumpTrue(id) else JumpFalse(id)]) && Defines(prog, target, id)
    requires low <= |m.stack| <= high
    ensures Inside(prog, w, m, k, low, high)
    ensures Run(prog, w, m, k) == m.(pc := if (m.t1 != 0) == onTrue then target else m.pc + 1)
  {
    hide Step, Defines, UniqueLabels;
    var code := [if onTrue then JumpTrue(id) else JumpFalse(id)];
    AtIndex(prog, m.pc, code);
    assert prog[m.pc + 0] == code[0];
    StepJumpIf(prog, w, m, onTrue, id, target);
    k := 0;
    Extend(prog, w, m, k, low, high);
    k := k + 1;
  }

  // ----- Simple statements -----

  lemma RunMarker(prog: seq<Instr>, w: World, m: Machine, i: Instr, low: nat, high: nat)
    returns (k: nat)
    requires i.op.NEW_LABEL? || i.op.START_BLOCK? || i.op.END_BLOCK? || i.op.START_FUNC?
    requires Ready(prog, m, [i]) && low <= |m.stack| <= high
    ensures k == 1 && Inside(prog, w, m, k, low, high)
    ensures Run(prog, w, m, k) == m.(pc := m.pc + 1)
  {
    hide Step, UniqueLabels;
    AtIndex(prog, m.pc, [i]);
    assert prog[m.pc + 0] == i;
    StepMarker(prog, w, m, i);
    k := 0;
    Extend(prog, w, m, k, low, high);
    k := k + 1;
  }

  lemma RunJump(prog: seq<Instr>, w: World, m: Machine, i: Instr, id: nat, target: nat, low: nat, high: nat)
    returns (k: nat)
    requires i.op.JMP? && i.dst == Label(id) && Defines(prog, target, id)
    requires Ready(prog, m, [i]) && low <= |m.stack| <= high
    ensures k == 1 && Inside(prog, w, m, k, low, high)
    ensures Run(prog, w, m, k) == m.(pc := target)
  {
    hide Step, UniqueLabels, Defines;
    AtIndex(prog, m.pc, [i]);
    assert prog[m.pc + 0] == i;
    StepJump(prog, w, m, i, id, target);
    k := 0;
    Extend(prog, w, m, k, low, high);
    k := k + 1;
  }

  /** Leaving a loop by break or continue. */
  lemma RunLeave(prog: seq<Instr>, w: World, m: Machine, id: nat, target: nat, low: nat, high: nat)
    returns (k: nat)
    requires Defines(prog, target, id)
    requires Ready(prog, m, [EndBlock(true), Jump(id)]) && low <= |m.stack| <= high
    ensures Inside(prog, w, m, k, low, high)
    ensures Run(prog, w, m, k) == m.(pc := target)
  {
    hide Step, Run, Inside, At, UniqueLabels, Defines;
    assert [EndBlock(true), Jump(id)] == [EndBlock(true)] + [Jump(id)];
    AtSplit(prog, m.pc, [EndBlock(true)], [Jump(id)]);
    k := RunMarker(prog, w, m, EndBlock(true), low, high);
    var j := RunJump(prog, w, Run(prog, w, m, k), Jump(id), id, target, low, high);
    Sequence(prog, w, m, k, j, low, high);
    k := k + j;
  }

  lemma RunStoreLocal(prog: seq<Instr>, w: World, m: Machine, uid: nat, low: nat, high: nat)
    returns (k: nat)
    requires Ready(prog, m, [Store(Local(uid), T1)]) && low <= |m.stack| <= high
    ensures Inside(prog, w, m, k, low, high)
    ensures Run(prog, w, m, k) == m.(pc := m.pc + 1, locals := m.locals[uid := m.t1])
  {
    hide Step, UniqueLabels;
    AtIndex(prog, m.pc, [Store(Local(uid), T1)]);
    assert prog[m.pc + 0] == Store(Local(uid), T1);
    StepStoreLocal(prog, w, m, uid);
    k := 0;
    Extend(prog, w, m, k, low, high);
    k := k + 1;
  }

  lemma StoredShape(e: H.Expr, uid: nat, n: nat)
    ensures var x := LowerExpr(e, n);
      LowerStored(e, uid, n).code == x.code + [Load(T1, x.operand)] + [Store(Local(uid), T1)]
  {
    hide LowerExpr;
  }

  lemma SimStored(prog: seq<Instr>, w: World, fuel: nat, m: Machine, e: H.Expr, uid: nat, n: nat, x: Exits,
                  low: nat, high: nat)
    returns (k: nat)
    requires H.ExprOk(e) && Room(m, Slots(e), low, high) && Ready(prog, m, LowerStored(e, uid, n).code)
    ensures Inside(prog, w, m, k, low, high)
    ensures Ended(fuel, k, m.stack, Run(prog, w, m, k), m.pc + |LowerStored(e, uid, n).code|, x,
                  H.Store(w, m.locals, m.trace, uid, e))
  {
    hide Step, Run, Inside, At, UniqueLabels, H.ExprOk, LowerExpr, Slots, Load, H.Eval, LowerStored, Store;
    StoredShape(e, uid, n);
    var y := LowerExpr(e, n);
    AtSplit(prog, m.pc, y.code + [Load(T1, y.operand)], [Store(Local(uid), T1)]);
    k := SimLoaded(prog, w, m, e, n, low, high);
    if H.Eval(w, m.locals, m.trace, e).Val? {
      var j := RunStoreLocal(prog, w, Run(prog, w, m, k), uid, low, high);
      Sequence(prog, w, m, k, j, low, high);
      k := k + j;
    }
  }

  lemma StepDeclare(prog: seq<Instr>, w: World, m: Machine, uid: nat)
    requires Fetches(prog, m, Store(Local(uid), Nothing))
    ensures Step(prog, w, m) == m.(pc := m.pc + 1)
  {
  }

  lemma RunDeclare(prog: seq<Instr>, w: World, m: Machine, uid: nat, low: nat, high: nat)
    returns (k: nat)
    requires Ready(prog, m, [Store(Local(uid), Nothing)]) && low <= |m.stack| <= high
    ensures Inside(prog, w, m, k, low, high)
    ensures Run(prog, w, m, k) == m.(pc := m.pc + 1)
  {
    hide Step, UniqueLabels;
    AtIndex(prog, m.pc, [Store(Local(uid), Nothing)]);
    assert prog[m.pc + 0] == Store(Local(uid), Nothing);
    StepDeclare(prog, w, m, uid);
    k := 0;
    Extend(prog, w, m, k, low, high);
    k := k + 1;
  }

  lemma StepReturn(prog: seq<Instr>, w: World, m: Machine, o: Operand, v: Option<Word>)
    requires Fetches(prog, m, Instr(RETURN, Nothing, o))
    requires if o.Nothing? then v == None else v.Some? && Read(w, m, o) == v
    ensures Step(prog, w, m) == m.(status := Returned(v))
  {
    hide Read;
  }

  lemma RunReturn(prog: seq<Instr>, w: World, m: Machine, o: Operand, v: Option<Word>, low: nat, high: nat)
    returns (k: nat)
    requires Ready(prog, m, [Instr(RETURN, Nothing, o)]) && low <= |m.stack| <= high
    requires if o.Nothing? then v == None else v.Some? && Read(w, m, o) == v
    ensures Inside(prog, w, m, k, low, high)
    ensures Run(prog, w, m, k) == m.(status := Returned(v))
  {
    hide Step, UniqueLabels, Read;
    AtIndex(prog, m.pc, [Instr(RETURN, Nothing, o)]);
    assert prog[m.pc + 0] == Instr(RETURN, Nothing, o);
    StepReturn(prog, w, m, o, v);
    k := 0;
    Extend(prog, w, m, k, low, high);
    k := k + 1;
  }

  lemma OperandPresent(e: H.Expr, n: nat)
    ensures !LowerExpr(e, n).operand.Nothing?
  {
  }

  lemma SimReturn(prog: seq<Instr>, w: World, fuel: nat, m: Machine, s: H.Stmt, n: nat, x: Exits, low: nat, high: nat)
    returns (k: nat)
    requires s.Return? && H.OptionOk(s.result) && Room(m, OptionSlots(s.result), low, high)
    requires var y := LowerInitializer(s.result, n); Ready(prog, m, y.code + [Instr(RETURN, Nothing, y.operand)])
    ensures Inside(prog, w, m, k, low, high)
    ensures forall p :: Ended(fuel, k, m.stack, Run(prog, w, m, k), p, x, H.Exec(w, fuel, m.locals, m.trace, s))
  {
    hide Step, Run, Inside, At, UniqueLabels, H.ExprOk, LowerExpr, Slots, H.Eval, Read;
    var y := LowerInitializer(s.result, n);
    AtSplit(prog, m.pc, y.code, [Instr(RETURN, Nothing, y.operand)]);
    if s.result.None? {
      k := RunReturn(prog, w, m, Nothing, None, low, high);
    } else {
      OperandPresent(s.result.value, n);
      k := SimExpr(prog, w, m, s.result.value, n, low, high);
      var r := H.Eval(w, m.locals, m.trace, s.result.value);
      if r.Val? {
        var j := RunReturn(prog, w, Run(prog, w, m, k), y.operand, Some(r.v), low, high);
        Sequence(prog, w, m, k, j, low, high);
        k := k + j;
      }
    }
  }

  // ----- Where the parts of structured statements lie -----

  lemma DefinedAt(prog: seq<Instr>, p: nat, code: seq<Instr>, i: nat, id: nat)
    requires At(prog, p, code) && i < |code| && code[i] == NewLabel(id)
    ensures Defines(prog, p + i, id)
  {
    AtIndex(prog, p, code);
    assert prog[p + i] == code[i];
  }

  lemma BlockLayout(prog: seq<Instr>, p: nat, ss: seq<H.Stmt>, n: nat, breakLabel: nat, continueLabel: nat)
    requires At(prog, p, LowerBlock(ss, n, breakLabel, continueLabel).code)
    ensures var b := LowerAll(ss, n, breakLabel, continueLabel).code;
      && At(prog, p, [StartBlock()]) && At(prog, p + 1, b) && At(prog, p + 1 + |b|, [EndBlock(false)])
      && |LowerBlock(ss, n, breakLabel, continueLabel).code| == |b| + 2
  {
    hide At, LowerAll, StartBlock, EndBlock;
    AtSplit3(prog, p, [StartBlock()], LowerAll(ss, n, breakLabel, continueLabel).code, [EndBlock(false)]);
  }

  lemma IfShape(c: H.Expr, b: seq<H.Stmt>, n: nat, breakLabel: nat, continueLabel: nat)
    ensures var test := TestCode(c, n + 1, false, n);
      var body := LowerBlock(b, LowerExpr(c, n + 1).next, breakLabel, continueLabel).code;
      LowerStmt(H.If(c, b, []), n, breakLabel, continueLabel).code == test + body + [NewLabel(n)]
  {
    hide LowerExpr, LowerBlock, Load, JumpFalse, NewLabel;
    var x := LowerExpr(c, n + 1);
    assert x.code + [Load(T1, x.operand), JumpFalse(n)] == x.code + [Load(T1, x.operand)] + [JumpFalse(n)];
  }

  lemma IfElseShape(c: H.Expr, b: seq<H.Stmt>, o: seq<H.Stmt>, n: nat, breakLabel: nat, continueLabel: nat)
    requires o != []
    ensures var test := TestCode(c, n + 2, false, n);
      var body := LowerBlock(b, LowerExpr(c, n + 2).next, breakLabel, continueLabel);
      var otherwise := LowerBlock(o, body.next, breakLabel, continueLabel).code;
      LowerStmt(H.If(c, b, o), n, breakLabel, continueLabel).code ==
        test + body.code + [Jump(n + 1), NewLabel(n)] + (otherwise + [NewLabel(n + 1)])
  {
    hide LowerExpr, LowerBlock, Load, JumpFalse, NewLabel, Jump;
    var x := LowerExpr(c, n + 2);
    assert x.code + [Load(T1, x.operand), JumpFalse(n)] == x.code + [Load(T1, x.operand)] + [JumpFalse(n)];
    var body := LowerBlock(b, x.next, breakLabel, continueLabel);
    Associate(x.code + [Load(T1, x.operand), JumpFalse(n)] + body.code + [Jump(n + 1), NewLabel(n)],
              LowerBlock(o, body.next, breakLabel, continueLabel).code, [NewLabel(n + 1)]);
  }

  // ----- Structured statements -----

  lemma {:induction false} SimAll(prog: seq<Instr>, w: World, fuel: nat, m: Machine, ss: seq<H.Stmt>, n: nat, x: Exits,
                                  most: nat, low: nat, high: nat)
    returns (k: nat)
    requires H.StmtsOk(ss, x.inLoop) && BlockSlots(ss) <= most
    requires Start(prog, m, LowerAll(ss, n, x.breakLabel, x.continueLabel).code, x, most, low, high)
    ensures Inside(prog, w, m, k, low, high)
    ensures Ended(fuel, k, m.stack, Run(prog, w, m, k), m.pc + |LowerAll(ss, n, x.breakLabel, x.continueLabel).code|, x,
                  H.ExecAll(w, fuel, m.locals, m.trace, ss))
    decreases fuel, ss, 1
  {
    hide Step, At, UniqueLabels, H.StmtOk, H.Exec, LowerStmt, StmtSlots, Defines;
    if ss == [] {
      k := 0;
    } else {
      var s := LowerStmt(ss[0], n, x.breakLabel, x.continueLabel);
      var rest := LowerAll(ss[1..], s.next, x.breakLabel, x.continueLabel).code;
      AtSplit(prog, m.pc, s.code, rest);
      k := SimStmt(prog, w, fuel, m, ss[0], n, x, most, low, high);
      var r := H.Exec(w, fuel, m.locals, m.trace, ss[0]);
      if r.Done? && r.outcome.Normal? {
        var m1 := Run(prog, w, m, k);
        var j := SimAll(prog, w, fuel, m1, ss[1..], s.next, x, most, low, high);
        Sequence(prog, w, m, k, j, low, high);
        EndedLater(fuel, j, k + j, m.stack, Run(prog, w, m, k + j), m1.pc + |rest|, x,
                   H.ExecAll(w, fuel, m1.locals, m1.trace, ss[1..]), fuel);
        k := k + j;
      }
    }
  }

  /** Steps in front of a run keep what is known about its end. */
  lemma EndedLater(fuel: nat, j: nat, k: nat, stack: seq<Word>, m: Machine, p: nat, x: Exits, r: H.Result, fuel': nat)
    requires Ended(fuel, j, stack, m, p, x, r) && k + fuel >= j + fuel'
    ensures Ended(fuel', k, stack, m, p, x, r)
  {
  }

  lemma {:induction false} SimBlock(prog: seq<Instr>, w: World, fuel: nat, m: Machine, ss: seq<H.Stmt>, n: nat,
                                    x: Exits,
                                    most: nat, low: nat, high: nat)
    returns (k: nat)
    requires H.StmtsOk(ss, x.inLoop) && BlockSlots(ss) <= most
    requires Start(prog, m, LowerBlock(ss, n, x.breakLabel, x.continueLabel).code, x, most, low, high)
    ensures Inside(prog, w, m, k, low, high)
    ensures Ended(fuel, k, m.stack, Run(prog, w, m, k), m.pc + |LowerBlock(ss, n, x.breakLabel,
                                                                           x.continueLabel).code|, x,
                  H.ExecAll(w, fuel, m.locals, m.trace, ss))
    decreases fuel, ss, 2
  {
    hide Step, Run, Inside, At, UniqueLabels, H.StmtsOk, H.ExecAll, LowerAll, LowerBlock, BlockSlots, Defines, Ended,
      StartBlock;
    BlockLayout(prog, m.pc, ss, n, x.breakLabel, x.continueLabel);
    k := RunStart(prog, w, m, low, high);
    var m1 := Run(prog, w, m, k);
    var j := SimAll(prog, w, fuel, m1, ss, n, x, most, low, high);
    Sequence(prog, w, m, k, j, low, high);
    var r := H.ExecAll(w, fuel, m.locals, m.trace, ss);
    var p := m1.pc + |LowerAll(ss, n, x.breakLabel, x.continueLabel).code|;
    EndedLater(fuel, j, k + j, m.stack, Run(prog, w, m, k + j), p, x, r, fuel);
    k := k + j;
    k := CloseWith(prog, w, fuel, m, k, p, EndBlock(false), x, r, low, high);
  }

  lemma RunStart(prog: seq<Instr>, w: World, m: Machine, low: nat, high: nat)
    returns (k: nat)
    requires Ready(prog, m, [StartBlock()]) && low <= |m.stack| <= high
    ensures k == 1 && Inside(prog, w, m, k, low, high)
    ensures Run(prog, w, m, k) == m.(pc := m.pc + 1)
  {
    hide Step, Run, Inside, At, UniqueLabels;
    k := RunMarker(prog, w, m, StartBlock(), low, high);
  }

  /** A normal end passes the marker that follows; every other end has left already. */
  lemma CloseWith(prog: seq<Instr>, w: World, fuel: nat, m: Machine, j: nat, p: nat, i: Instr, x: Exits, r: H.Result,
                  low: nat, high: nat)
    returns (k: nat)
    requires i.op.NEW_LABEL? || i.op.END_BLOCK?
    requires UniqueLabels(prog) && At(prog, p, [i]) && low <= |m.stack| <= high
    requires Inside(prog, w, m, j, low, high) && Ended(fuel, j, m.stack, Run(prog, w, m, j), p, x, r)
    ensures Inside(prog, w, m, k, low, high) && Ended(fuel, k, m.stack, Run(prog, w, m, k), p + 1, x, r)
  {
    hide Step, Run, Inside, At, UniqueLabels;
    k := j;
    if r.Done? && r.outcome.Normal? {
      var l := RunMarker(prog, w, Run(prog, w, m, j), i, low, high);
      Sequence(prog, w, m, j, l, low, high);
      k := j + l;
    }
  }

  /** Steps in front of a run that ends the way the source does. */
  lemma Precede(prog: seq<Instr>, w: World, fuel: nat, m: Machine, k: nat, j: nat, p: nat, x: Exits, r: H.Result,
                low: nat, high: nat)
    requires Inside(prog, w, m, k, low, high) && Inside(prog, w, Run(prog, w, m, k), j, low, high)
    requires Ended(fuel, j, m.stack, Run(prog, w, Run(prog, w, m, k), j), p, x, r)
    ensures Inside(prog, w, m, k + j, low, high)
    ensures Ended(fuel + k, k + j, m.stack, Run(prog, w, m, k + j), p, x, r)
  {
    hide Step, Run, Inside;
    Sequence(prog, w, m, k, j, low, high);
  }

  // ----- if -----

  lemma {:induction false} SimIf(prog: seq<Instr>, w: World, fuel: nat, m: Machine, s: H.Stmt, n: nat, x: Exits,
                                 most: nat, low: nat, high: nat)
    returns (k: nat)
    requires s.If? && s.otherwise == []
    requires H.ExprOk(s.condition) && H.StmtsOk(s.body, x.inLoop)
    requires Slots(s.condition) <= most && BlockSlots(s.body) <= most
    requires Start(prog, m, LowerStmt(s, n, x.breakLabel, x.continueLabel).code, x, most, low, high)
    ensures Inside(prog, w, m, k, low, high)
    ensures Ended(fuel, k, m.stack, Run(prog, w, m, k), m.pc + |LowerStmt(s, n, x.breakLabel, x.continueLabel).code|, x,
                  H.Exec(w, fuel, m.locals, m.trace, s))
    decreases fuel, s, 0
  {
    hide Step, Run, Inside, At, UniqueLabels, H.ExprOk, H.StmtsOk, H.ExecAll, LowerStmt, LowerBlock, LowerExpr,
        TestCode,
      Slots, BlockSlots, Defines, Ended, H.Eval, NewLabel;
    IfShape(s.condition, s.body, n, x.breakLabel, x.continueLabel);
    var test := TestCode(s.condition, n + 1, false, n);
    var next := LowerExpr(s.condition, n + 1).next;
    var body := LowerBlock(s.body, next, x.breakLabel, x.continueLabel).code;
    AtSplit3(prog, m.pc, test, body, [NewLabel(n)]);
    var q := m.pc + |test| + |body|;
    DefinedAt(prog, q, [NewLabel(n)], 0, n);
    k := SimTest(prog, w, m, s.condition, n + 1, false, n, q, low, high);
    var c := H.Eval(w, m.locals, m.trace, s.condition);
    IfMeaning(w, fuel, m.locals, m.trace, s);
    if c.Fault? {
      FaultEnds(fuel, k, m, Run(prog, w, m, k), q + 1, x, c.trace);
    } else {
      k := SimThen(prog, w, fuel, m, k, s.body, c, next, q, n, x, most, low, high);
    }
  }

  lemma IfMeaning(w: World, fuel: nat, locals: map<nat, Word>, trace: seq<Event>, s: H.Stmt)
    requires s.If?
    ensures var c := H.Eval(w, locals, trace, s.condition);
      H.Exec(w, fuel, locals, trace, s) ==
        if c.Fault? then H.Faulted(locals, c.trace)
        else H.ExecAll(w, fuel, locals, c.trace, if c.v != 0 then s.body else s.otherwise)
  {
    hide H.Eval, H.ExecAll;
  }

  lemma FaultEnds(fuel: nat, k: nat, m: Machine, m': Machine, p: nat, x: Exits, trace: seq<Event>)
    requires FaultedFrom(m, m', trace)
    ensures Ended(fuel, k, m.stack, m', p, x, H.Faulted(m.locals, trace))
  {
  }

  /** A branch without an else part, k steps after m: the block, or nothing, then the label. */
  lemma {:induction false} SimThen(prog: seq<Instr>, w: World, fuel: nat, m: Machine, j: nat, ss: seq<H.Stmt>,
                                   c: H.Value,
                                   n: nat, q: nat, id: nat, x: Exits, most: nat, low: nat, high: nat)
    returns (k: nat)
    requires c.Val? && H.StmtsOk(ss, x.inLoop) && BlockSlots(ss) <= most
    requires UniqueLabels(prog) && Placed(prog, x) && Room(m, most, low, high) && Inside(prog, w, m, j, low, high)
    requires var b := LowerBlock(ss, n, x.breakLabel, x.continueLabel).code;
      |b| <= q && At(prog, q - |b|, b) && At(prog, q, [NewLabel(id)])
      && Came(m.stack, Run(prog, w, m, j), if c.v != 0 then q - |b| else q, m.locals, c.trace)
    ensures Inside(prog, w, m, k, low, high)
    ensures Ended(fuel, k, m.stack, Run(prog, w, m, k), q + 1, x,
                  H.ExecAll(w, fuel, m.locals, c.trace, if c.v != 0 then ss else []))
    decreases fuel, ss, 4
  {
    hide Step, Run, Inside, At, UniqueLabels, H.StmtsOk, LowerBlock, BlockSlots, Defines;
    k := j;
    var r := H.ExecAll(w, fuel, m.locals, c.trace, if c.v != 0 then ss else []);
    if c.v != 0 {
      k := SimBranch(prog, w, fuel, m, j, ss, n, x, c.trace, q, most, low, high);
    } else {
      NothingEnds(w, fuel, k, m, Run(prog, w, m, k), q, x, c.trace);
    }
    k := CloseWith(prog, w, fuel, m, k, q, NewLabel(id), x, r, low, high);
  }

  lemma NothingEnds(w: World, fuel: nat, k: nat, m: Machine, m': Machine, p: nat, x: Exits, trace: seq<Event>)
    requires Came(m.stack, m', p, m.locals, trace)
    ensures Ended(fuel, k, m.stack, m', p, x, H.ExecAll(w, fuel, m.locals, trace, []))
  {
  }

  /** A block run j steps after m. */
  lemma {:induction false} SimBranch(prog: seq<Instr>, w: World, fuel: nat, m: Machine, j: nat, ss: seq<H.Stmt>, n: nat,
                                     x: Exits, trace: seq<Event>, q: nat, most: nat, low: nat, high: nat)
    returns (k: nat)
    requires H.StmtsOk(ss, x.inLoop) && BlockSlots(ss) <= most
    requires UniqueLabels(prog) && Placed(prog, x) && Room(m, most, low, high) && Inside(prog, w, m, j, low, high)
    requires var b := LowerBlock(ss, n, x.breakLabel, x.continueLabel).code;
      |b| <= q && At(prog, q - |b|, b) && Came(m.stack, Run(prog, w, m, j), q - |b|, m.locals, trace)
    ensures Inside(prog, w, m, k, low, high)
    ensures Ended(fuel, k, m.stack, Run(prog, w, m, k), q, x, H.ExecAll(w, fuel, m.locals, trace, ss))
    ensures k >= j
    ensures Ended(fuel + j, k, m.stack, Run(prog, w, m, k), q, x, H.ExecAll(w, fuel, m.locals, trace, ss))
    decreases fuel, ss, 3
  {
    hide Step, Run, Inside, At, UniqueLabels, H.StmtsOk, LowerBlock, BlockSlots, Defines, Ended, H.ExecAll;
    var r := H.ExecAll(w, fuel, m.locals, trace, ss);
    var l := SimBlock(prog, w, fuel, Run(prog, w, m, j), ss, n, x, most, low, high);
    Precede(prog, w, fuel, m, j, l, q, x, r, low, high);
    k := j + l;
    EndedLater(fuel + j, k, k, m.stack, Run(prog, w, m, k), q, x, r, fuel);
  }

  /** A normal end takes the jump that follows; every other end has left already. */
  lemma JumpOver(prog: seq<Instr>, w: World, fuel: nat, m: Machine, j: nat, p: nat, i: Instr, id: nat, target: nat,
                 x: Exits, r: H.Result, low: nat, high: nat)
    returns (k: nat)
    requires i.op.JMP? && i.dst == Label(id) && Defines(prog, target, id)
    requires UniqueLabels(prog) && At(prog, p, [i]) && low <= |m.stack| <= high
    requires Inside(prog, w, m, j, low, high) && Ended(fuel, j, m.stack, Run(prog, w, m, j), p, x, r)
    ensures k >= j && Inside(prog, w, m, k, low, high) && Ended(fuel, k, m.stack, Run(prog, w, m, k), target, x, r)
  {
    hide Step, Run, Inside, At, UniqueLabels, Defines;
    k := j;
    if r.Done? && r.outcome.Normal? {
      var l := RunJump(prog, w, Run(prog, w, m, j), i, id, target, low, high);
      Sequence(prog, w, m, j, l, low, high);
      k := j + l;
    }
  }

  /** A marker passed j steps after m. */
  lemma PassMarker(prog: seq<Instr>, w: World, m: Machine, j: nat, p: nat, i: Instr, trace: seq<Event>, low: nat,
                   high: nat)
    requires i.op.NEW_LABEL? || i.op.END_BLOCK? || i.op.START_BLOCK?
    requires UniqueLabels(prog) && At(prog, p, [i]) && low <= |m.stack| <= high
    requires Inside(prog, w, m, j, low, high) && Came(m.stack, Run(prog, w, m, j), p, m.locals, trace)
    ensures Inside(prog, w, m, j + 1, low, high) && Came(m.stack, Run(prog, w, m, j + 1), p + 1, m.locals, trace)
  {
    hide Step, Run, Inside, At, UniqueLabels;
    var l := RunMarker(prog, w, Run(prog, w, m, j), i, low, high);
    Sequence(prog, w, m, j, l, low, high);
  }

  lemma {:induction false} SimIfElse(prog: seq<Instr>, w: World, fuel: nat, m: Machine, s: H.Stmt, n: nat, x: Exits,
                                     most: nat, low: nat, high: nat)
    returns (k: nat)
    requires s.If? && s.otherwise != []
    requires H.ExprOk(s.condition) && H.StmtsOk(s.body, x.inLoop) && H.StmtsOk(s.otherwise, x.inLoop)
    requires Slots(s.condition) <= most && BlockSlots(s.body) <= most && BlockSlots(s.otherwise) <= most
    requires Start(prog, m, LowerStmt(s, n, x.breakLabel, x.continueLabel).code, x, most, low, high)
    ensures Inside(prog, w, m, k, low, high)
    ensures Ended(fuel, k, m.stack, Run(prog, w, m, k), m.pc + |LowerStmt(s, n, x.breakLabel, x.continueLabel).code|, x,
                  H.Exec(w, fuel, m.locals, m.trace, s))
    decreases fuel, s, 0
  {
    hide Step, Run, Inside, At, UniqueLabels, H.ExprOk, H.StmtsOk, H.ExecAll, LowerStmt, LowerBlock, LowerExpr,
        TestCode,
      Slots, BlockSlots, Defines, Ended, H.Eval, NewLabel, Jump;
    IfElseShape(s.condition, s.body, s.otherwise, n, x.breakLabel, x.continueLabel);
    var test := TestCode(s.condition, n + 2, false, n);
    var next := LowerExpr(s.condition, n + 2).next;
    var body := LowerBlock(s.body, next, x.breakLabel, x.continueLabel);
    var other := LowerBlock(s.otherwise, body.next, x.breakLabel, x.continueLabel).code;
    var q := m.pc + |test| + |body.code|;
    IfElseLayout(prog, m.pc, test, body.code, other, n);
    k := SimTest(prog, w, m, s.condition, n + 2, false, n, q + 1, low, high);
    var c := H.Eval(w, m.locals, m.trace, s.condition);
    IfMeaning(w, fuel, m.locals, m.trace, s);
    if c.Fault? {
      FaultEnds(fuel, k, m, Run(prog, w, m, k), q + 2 + |other| + 1, x, c.trace);
    } else {
      k := SimEither(prog, w, fuel, m, k, s.body, s.otherwise, c, next, q, n, x, most, low, high);
    }
  }

  lemma IfElseLayout(prog: seq<Instr>, p: nat, test: seq<Instr>, body: seq<Instr>, other: seq<Instr>, n: nat)
    requires At(prog, p, test + body + [Jump(n + 1), NewLabel(n)] + (other + [NewLabel(n + 1)]))
    ensures var q := p + |test| + |body|;
      && At(prog, p, test) && At(prog, p + |test|, body) && At(prog, q, [Jump(n + 1)]) && At(prog, q + 1, [NewLabel(n)])
      && At(prog, q + 2, other) && At(prog, q + 2 + |other|, [NewLabel(n + 1)])
      && Defines(prog, q + 1, n) && Defines(prog, q + 2 + |other|, n + 1)
  {
    hide At, Defines, NewLabel, Jump;
    var q := p + |test| + |body|;
    AtSplit4(prog, p, test, body, [Jump(n + 1), NewLabel(n)], other + [NewLabel(n + 1)]);
    assert [Jump(n + 1), NewLabel(n)] == [Jump(n + 1)] + [NewLabel(n)];
    AtSplit(prog, q, [Jump(n + 1)], [NewLabel(n)]);
    AtSplit(prog, q + 2, other, [NewLabel(n + 1)]);
    DefinedAt(prog, q + 1, [NewLabel(n)], 0, n);
    DefinedAt(prog, q + 2 + |other|, [NewLabel(n + 1)], 0, n + 1);
  }

  /** One of the two branches of an if, j steps after m. */
  lemma {:induction false} SimEither(prog: seq<Instr>, w: World, fuel: nat, m: Machine, j: nat, ss: seq<H.Stmt>,
                                     others: seq<H.Stmt>, c: H.Value, n: nat, q: nat, id: nat, x: Exits,
                                     most: nat, low: nat, high: nat)
    returns (k: nat)
    requires c.Val? && H.StmtsOk(ss, x.inLoop) && BlockSlots(ss) <= most
    requires H.StmtsOk(others, x.inLoop) && BlockSlots(others) <= most
    requires UniqueLabels(prog) && Placed(prog, x) && Room(m, most, low, high) && Inside(prog, w, m, j, low, high)
    requires var b := LowerBlock(ss, n, x.breakLabel, x.continueLabel);
      var o := LowerBlock(others, b.next, x.breakLabel, x.continueLabel).code;
      && |b.code| <= q && At(prog, q - |b.code|, b.code) && At(prog, q, [Jump(id + 1)]) && At(prog, q + 1,
          [NewLabel(id)])
      && At(prog, q + 2, o) && At(prog, q + 2 + |o|, [NewLabel(id + 1)]) && Defines(prog, q + 2 + |o|, id + 1)
      && Came(m.stack, Run(prog, w, m, j), if c.v != 0 then q - |b.code| else q + 1, m.locals, c.trace)
    ensures Inside(prog, w, m, k, low, high)
    ensures var b := LowerBlock(ss, n, x.breakLabel, x.continueLabel);
      var o := LowerBlock(others, b.next, x.breakLabel, x.continueLabel).code;
      Ended(fuel, k, m.stack, Run(prog, w, m, k), q + 2 + |o| + 1, x,
            H.ExecAll(w, fuel, m.locals, c.trace, if c.v != 0 then ss else others))
    decreases fuel, if c.v != 0 then ss else others, 4
  {
    hide Step, Run, Inside, At, UniqueLabels, H.StmtsOk, LowerBlock, BlockSlots, Defines, Ended, H.ExecAll;
    var b := LowerBlock(ss, n, x.breakLabel, x.continueLabel);
    var o := LowerBlock(others, b.next, x.breakLabel, x.continueLabel).code;
    var r := H.ExecAll(w, fuel, m.locals, c.trace, if c.v != 0 then ss else others);
    var end := q + 2 + |o|;
    if c.v != 0 {
      k := SimBranch(prog, w, fuel, m, j, ss, n, x, c.trace, q, most, low, high);
      k := JumpOver(prog, w, fuel, m, k, q, Jump(id + 1), id + 1, end, x, r, low, high);
    } else {
      PassMarker(prog, w, m, j, q + 1, NewLabel(id), c.trace, low, high);
      k := SimBranch(prog, w, fuel, m, j + 1, others, b.next, x, c.trace, end, most, low, high);
    }
    k := CloseWith(prog, w, fuel, m, k, end, NewLabel(id + 1), x, r, low, high);
  }

  // ----- Loops -----

  /** A test run j steps after m. */
  lemma SimTestFrom(prog: seq<Instr>, w: World, m: Machine, j: nat, p: nat, trace: seq<Event>, c: H.Expr, n: nat,
                    onTrue: bool, id: nat, target: nat, low: nat, high: nat)
    returns (k: nat)
    requires H.ExprOk(c) && Room(m, Slots(c), low, high) && UniqueLabels(prog) && Defines(prog, target, id)
    requires At(prog, p, TestCode(c, n, onTrue, id))
    requires Inside(prog, w, m, j, low, high) && Came(m.stack, Run(prog, w, m, j), p, m.locals, trace)
    ensures k >= j && Inside(prog, w, m, k, low, high)
    ensures var r := H.Eval(w, m.locals, trace, c);
      var m' := Run(prog, w, m, k);
      if r.Fault? then FaultedFrom(m, m', r.trace)
      else Came(m.stack, m', if (r.v != 0) == onTrue then target else p + |TestCode(c, n, onTrue, id)|, m.locals,
                r.trace)
  {
    hide Step, Run, Inside, At, UniqueLabels, H.ExprOk, Slots, Defines, H.Eval, TestCode;
    var l := SimTest(prog, w, Run(prog, w, m, j), c, n, onTrue, id, target, low, high);
    Sequence(prog, w, m, j, l, low, high);
    k := j + l;
  }

  /** What a loop makes of a body run that does not go on. */
  lemma LeaveLoop(prog: seq<Instr>, w: World, fuel: nat, m: Machine, j: nat, p: nat, id: nat, inner: Exits, x: Exits,
                  b: H.Result, low: nat, high: nat)
    returns (k: nat)
    requires !H.EndsTurn(b) && UniqueLabels(prog) && At(prog, inner.atBreak, [NewLabel(id)]) && low <= |m.stack| <= high
    requires Inside(prog, w, m, j, low, high) && Ended(fuel, j, m.stack, Run(prog, w, m, j), p, inner, b)
    ensures Inside(prog, w, m, k, low, high)
    ensures Ended(fuel, k, m.stack, Run(prog, w, m, k), inner.atBreak + 1, x, H.AfterLoop(b))
  {
    hide Step, Run, Inside, At, UniqueLabels;
    k := j;
    if b.Done? && b.outcome.Broke? {
      var l := RunMarker(prog, w, Run(prog, w, m, j), NewLabel(id), low, high);
      Sequence(prog, w, m, j, l, low, high);
      k := j + l;
    }
  }

  /** Loop turns that end, seen from m, when the rest of the loop ends from where they left off. */
  lemma NextTurn(prog: seq<Instr>, w: World, fuel: nat, m: Machine, j: nat, l: nat, p: nat, x: Exits, r: H.Result,
                 low: nat, high: nat)
    requires fuel > 0 && j > 0
    requires Inside(prog, w, m, j, low, high) && Inside(prog, w, Run(prog, w, m, j), l, low, high)
    requires Ended(fuel - 1, l, m.stack, Run(prog, w, Run(prog, w, m, j), l), p, x, r)
    ensures Inside(prog, w, m, j + l, low, high) && Ended(fuel, j + l, m.stack, Run(prog, w, m, j + l), p, x, r)
  {
    hide Step, Run, Inside, Ended;
    Precede(prog, w, fuel - 1, m, j, l, p, x, r, low, high);
    EndedLater(fuel - 1 + j, j + l, j + l, m.stack, Run(prog, w, m, j + l), p, x, r, fuel);
  }

  /** The body of a loop, j steps after m. */
  lemma {:induction false} SimLoopBody(prog: seq<Instr>, w: World, fuel: nat, m: Machine, j: nat, ss: seq<H.Stmt>,
                                       n: nat,
                                       inner: Exits, trace: seq<Event>, q: nat, most: nat, low: nat, high: nat)
    returns (k: nat)
    requires fuel > 0 && j > 0 && H.StmtsOk(ss, inner.inLoop) && BlockSlots(ss) <= most
    requires UniqueLabels(prog) && Placed(prog, inner) && Room(m, most, low, high) && Inside(prog, w, m, j, low, high)
    requires var b := LowerBlock(ss, n, inner.breakLabel, inner.continueLabel).code;
      |b| <= q && At(prog, q - |b|, b) && Came(m.stack, Run(prog, w, m, j), q - |b|, m.locals, trace)
    ensures k > 0 && Inside(prog, w, m, k, low, high)
    ensures Ended(fuel, k, m.stack, Run(prog, w, m, k), q, inner, H.ExecAll(w, fuel - 1, m.locals, trace, ss))
    decreases fuel - 1, ss, 4
  {
    hide Step, Run, Inside, At, UniqueLabels, H.StmtsOk, LowerBlock, BlockSlots, Defines, Ended, H.ExecAll;
    k := SimBranch(prog, w, fuel - 1, m, j, ss, n, inner, trace, q, most, low, high);
    EndedLater(fuel - 1 + j, k, k, m.stack, Run(prog, w, m, k), q, inner, H.ExecAll(w, fuel - 1, m.locals, trace, ss),
               fuel);
  }

  // ----- while -----

  function WhileTest(s: H.Stmt, n: nat): seq<Instr>
    requires s.While?
  {
    TestCode(s.condition, n + 3, false, n + 2)
  }

  function WhileBody(s: H.Stmt, n: nat): seq<Instr>
    requires s.While?
  {
    LowerBlock(s.body, LowerExpr(s.condition, n + 3).next, n + 2, n).code
  }

  /** The end of a while loop that starts at p. */
  function WhileEnd(s: H.Stmt, n: nat, p: nat): nat
    requires s.While?
  {
    p + 1 + |WhileTest(s, n)| + 1 + |WhileBody(s, n)| + 2
  }

  ghost predicate WhileAt(prog: seq<Instr>, p: nat, s: H.Stmt, n: nat)
    requires s.While?
  {
    var q := p + 1 + |WhileTest(s, n)|;
    var e := q + 1 + |WhileBody(s, n)|;
    && At(prog, p, [NewLabel(n)]) && At(prog, p + 1, WhileTest(s, n)) && At(prog, q, [NewLabel(n + 1)])
    && At(prog, q + 1, WhileBody(s, n)) && At(prog, e, [Instr(JMP, Label(n), T1)]) && At(prog, e + 1, [NewLabel(n + 2)])
    && Defines(prog, p, n) && Defines(prog, e + 1, n + 2)
  }

  lemma WhileLayout(prog: seq<Instr>, p: nat, s: H.Stmt, n: nat, breakLabel: nat, continueLabel: nat)
    requires s.While? && !s.doFirst && At(prog, p, LowerStmt(s, n, breakLabel, continueLabel).code)
    ensures WhileAt(prog, p, s, n) && p + |LowerStmt(s, n, breakLabel, continueLabel).code| == WhileEnd(s, n, p)
  {
    hide At, Defines, LowerExpr, LowerBlock;
    var test, body := WhileTest(s, n), WhileBody(s, n);
    var tail := [Instr(JMP, Label(n), T1), NewLabel(n + 2)];
    WhileShape(s, n, breakLabel, continueLabel);
    AtSplit4(prog, p, [NewLabel(n)], test, [NewLabel(n + 1)], body + tail);
    var q := p + 1 + |test|;
    var e := q + 1 + |body|;
    AtSplit(prog, q + 1, body, tail);
    assert tail == [Instr(JMP, Label(n), T1)] + [NewLabel(n + 2)];
    AtSplit(prog, e, [Instr(JMP, Label(n), T1)], [NewLabel(n + 2)]);
    DefinedAt(prog, p, [NewLabel(n)], 0, n);
    DefinedAt(prog, e + 1, [NewLabel(n + 2)], 0, n + 2);
  }

  lemma WhileShape(s: H.Stmt, n: nat, breakLabel: nat, continueLabel: nat)
    requires s.While? && !s.doFirst
    ensures LowerStmt(s, n, breakLabel, continueLabel).code == [NewLabel(n)] + WhileTest(s, n) + [NewLabel(n + 1)]
      + (WhileBody(s, n) + [Instr(JMP, Label(n), T1), NewLabel(n + 2)])
  {
    hide LowerExpr, LowerBlock, Load, JumpFalse, NewLabel;
    var c := LowerExpr(s.condition, n + 3);
    var load, jump, l1 := Load(T1, c.operand), JumpFalse(n + 2), NewLabel(n + 1);
    var tail := [Instr(JMP, Label(n), T1), NewLabel(n + 2)];
    WhileRegroup([NewLabel(n)], c.code, load, jump, l1, WhileBody(s, n), tail);
  }

  lemma WhileRegroup(a: seq<Instr>, c: seq<Instr>, load: Instr, jump: Instr, l1: Instr, b: seq<Instr>, tail: seq<Instr>)
    ensures a + c + [load, jump, l1] + b + tail == a + (c + [load] + [jump]) + [l1] + (b + tail)
  {
  }

  /** The exits in force inside a while loop at p. */
  function WhileExits(s: H.Stmt, n: nat, p: nat): Exits
    requires s.While?
  {
    Exits(n + 2, WhileEnd(s, n, p) - 1, n, p, true)
  }

  ghost predicate LoopReady(prog: seq<Instr>, m: Machine, p: nat, s: H.Stmt, most: nat, low: nat, high: nat)
    requires s.While? || s.For?
  {
    && UniqueLabels(prog) && Came(m.stack, m, p, m.locals, m.trace) && Room(m, most, low, high)
    && H.ExprOk(s.condition) && H.StmtsOk(s.body, true) && Slots(s.condition) <= most && BlockSlots(s.body) <= most
  }

  lemma {:induction false} SimWhile(prog: seq<Instr>, w: World, fuel: nat, m: Machine, s: H.Stmt, n: nat, p: nat,
                                    x: Exits,
                                    most: nat, low: nat, high: nat)
    returns (k: nat)
    requires s.While? && !s.doFirst && WhileAt(prog, p, s, n) && LoopReady(prog, m, p, s, most, low, high)
    ensures Inside(prog, w, m, k, low, high)
    ensures Ended(fuel, k, m.stack, Run(prog, w, m, k), WhileEnd(s, n, p), x, H.Exec(w, fuel, m.locals, m.trace, s))
    decreases fuel, s, 3
  {
    hide Step, At, UniqueLabels, H.ExprOk, H.StmtsOk, H.ExecAll, LowerBlock, LowerExpr, TestCode,
      Slots, BlockSlots, Defines, H.Eval, NewLabel, WhileTest, WhileBody;
    WhileMeaning(w, fuel, m.locals, m.trace, s);
    hide H.Exec;
    if fuel == 0 {
      k := 0;
    } else {
      k := SimWhileTurn(prog, w, fuel, m, s, n, p, x, most, low, high);
    }
  }

  /** One turn of a while loop, unfolded. */
  ghost function WhileRest(w: World, fuel: nat, s: H.Stmt, b: H.Result): H.Result
    requires fuel > 0 && s.While?
  {
    if H.EndsTurn(b) then H.Exec(w, fuel - 1, b.locals, b.trace, s) else H.AfterLoop(b)
  }

  lemma WhileMeaning(w: World, fuel: nat, locals: map<nat, Word>, trace: seq<Event>, s: H.Stmt)
    requires s.While? && !s.doFirst
    ensures fuel == 0 ==> H.Exec(w, fuel, locals, trace, s) == H.OutOfFuel
    ensures fuel > 0 ==>
      var c := H.Eval(w, locals, trace, s.condition);
      H.Exec(w, fuel, locals, trace, s) ==
        if c.Fault? then H.Faulted(locals, c.trace)
        else if c.v == 0 then H.Done(H.Normal, locals, c.trace)
        else WhileRest(w, fuel, s, H.ExecAll(w, fuel - 1, locals, c.trace, s.body))
  {
    hide H.Eval, H.ExecAll;
  }

  lemma {:induction false} SimWhileTurn(prog: seq<Instr>, w: World, fuel: nat, m: Machine, s: H.Stmt, n: nat, p: nat,
                                        x: Exits, most: nat, low: nat, high: nat)
    returns (k: nat)
    requires fuel > 0 && s.While? && !s.doFirst && WhileAt(prog, p, s, n) && LoopReady(prog, m, p, s, most, low, high)
    ensures Inside(prog, w, m, k, low, high)
    ensures Ended(fuel, k, m.stack, Run(prog, w, m, k), WhileEnd(s, n, p), x, H.Exec(w, fuel, m.locals, m.trace, s))
    decreases fuel, s, 2
  {
    hide Step, Run, Inside, At, UniqueLabels, H.ExprOk, H.StmtsOk, H.Exec, H.ExecAll, LowerBlock, LowerExpr, TestCode,
      Slots, BlockSlots, Defines, H.Eval, WhileBody, WhileRest;
    WhileMeaning(w, fuel, m.locals, m.trace, s);
    NoSteps(prog, w, m, low, high);
    PassMarker(prog, w, m, 0, p, NewLabel(n), m.trace, low, high);
    k := SimTestFrom(prog, w, m, 1, p + 1, m.trace, s.condition, n + 3, false, n + 2, WhileEnd(s, n, p) - 1, low, high);
    var c := H.Eval(w, m.locals, m.trace, s.condition);
    if c.Val? {
      if c.v == 0 {
        PassMarker(prog, w, m, k, WhileEnd(s, n, p) - 1, NewLabel(n + 2), c.trace, low, high);
        k := k + 1;
      } else {
        k := SimWhileBody(prog, w, fuel, m, k, s, n, p, x, c.trace, most, low, high);
      }
    }
  }

  lemma NoSteps(prog: seq<Instr>, w: World, m: Machine, low: nat, high: nat)
    requires low <= |m.stack| <= high
    ensures Run(prog, w, m, 0) == m && Inside(prog, w, m, 0, low, high)
  {
  }

  /** From the body label of a while loop, j steps after m. */
  lemma {:induction false} SimWhileBody(prog: seq<Instr>, w: World, fuel: nat, m: Machine, j: nat, s: H.Stmt, n: nat,
                                        p: nat,
                                        x: Exits, trace: seq<Event>, most: nat, low: nat, high: nat)
    returns (k: nat)
    requires fuel > 0 && s.While? && !s.doFirst && WhileAt(prog, p, s, n) && LoopReady(prog, m, p, s, most, low, high)
    requires j > 0 && Inside(prog, w, m, j, low, high)
    requires Came(m.stack, Run(prog, w, m, j), p + 1 + |WhileTest(s, n)|, m.locals, trace)
    ensures Inside(prog, w, m, k, low, high)
    ensures Ended(fuel, k, m.stack, Run(prog, w, m, k), WhileEnd(s, n, p), x,
                  WhileRest(w, fuel, s, H.ExecAll(w, fuel - 1, m.locals, trace, s.body)))
    decreases fuel, s, 1
  {
    hide Step, Run, Inside, At, UniqueLabels, H.ExprOk, H.StmtsOk, H.ExecAll, LowerBlock, LowerExpr,
      Slots, BlockSlots, Defines, Ended, WhileTest, WhileRest;
    var q := p + 1 + |WhileTest(s, n)|;
    PassMarker(prog, w, m, j, q, NewLabel(n + 1), trace, low, high);
    k := SimLoopBody(prog, w, fuel, m, j + 1, s.body, LowerExpr(s.condition, n + 3).next, WhileExits(s, n, p), trace,
                     WhileEnd(s, n, p) - 2, most, low, high);
    k := SimWhileNext(prog, w, fuel, m, k, s, n, p, x, H.ExecAll(w, fuel - 1, m.locals, trace, s.body), most, low,
                      high);
  }

  /** From the end of the body of a while loop, j steps after m. */
  lemma {:induction false} SimWhileNext(prog: seq<Instr>, w: World, fuel: nat, m: Machine, j: nat, s: H.Stmt, n: nat,
                                        p: nat,
                                        x: Exits, b: H.Result, most: nat, low: nat, high: nat)
    returns (k: nat)
    requires fuel > 0 && s.While? && !s.doFirst && WhileAt(prog, p, s, n) && LoopReady(prog, m, p, s, most, low, high)
    requires j > 0 && Inside(prog, w, m, j, low, high)
    requires Ended(fuel, j, m.stack, Run(prog, w, m, j), WhileEnd(s, n, p) - 2, WhileExits(s, n, p), b)
    ensures Inside(prog, w, m, k, low, high)
    ensures Ended(fuel, k, m.stack, Run(prog, w, m, k), WhileEnd(s, n, p), x, WhileRest(w, fuel, s, b))
    decreases fuel - 1, s, 4
  {
    hide Step, Run, Inside, At, UniqueLabels, H.ExprOk, H.StmtsOk, H.Exec, Slots, BlockSlots, Defines, NewLabel,
      WhileTest, WhileBody;
    if H.EndsTurn(b) {
      k := JumpOver(prog, w, fuel, m, j, WhileEnd(s, n, p) - 2, Instr(JMP, Label(n), T1), n, p, WhileExits(s, n, p),
                    b, low, high);
      var m1 := Run(prog, w, m, k);
      var l := SimWhile(prog, w, fuel - 1, m1, s, n, p, x, most, low, high);
      NextTurn(prog, w, fuel, m, k, l, WhileEnd(s, n, p), x, H.Exec(w, fuel - 1, b.locals, b.trace, s), low, high);
      k := k + l;
    } else {
      k := LeaveLoop(prog, w, fuel, m, j, WhileEnd(s, n, p) - 2, n + 2, WhileExits(s, n, p), x, b, low, high);
    }
  }

  // ----- do while -----

  function DoBody(s: H.Stmt, n: nat): Piece
    requires s.While?
  {
    LowerBlock(s.body, n + 3, n + 2, n)
  }

  function DoTest(s: H.Stmt, n: nat): seq<Instr>
    requires s.While?
  {
    TestCode(s.condition, DoBody(s, n).next, true, n + 1)
  }

  /** The end of a do-while loop that starts at p. */
  function DoEnd(s: H.Stmt, n: nat, p: nat): nat
    requires s.While?
  {
    p + 1 + |DoBody(s, n).code| + 1 + |DoTest(s, n)| + 1
  }

  ghost predicate DoAt(prog: seq<Instr>, p: nat, s: H.Stmt, n: nat)
    requires s.While?
  {
    var q := p + 1 + |DoBody(s, n).code|;
    var e := q + 1 + |DoTest(s, n)|;
    && At(prog, p, [NewLabel(n + 1)]) && At(prog, p + 1, DoBody(s, n).code) && At(prog, q, [NewLabel(n)])
    && At(prog, q + 1, DoTest(s, n)) && At(prog, e, [NewLabel(n + 2)])
    && Defines(prog, p, n + 1) && Defines(prog, q, n) && Defines(prog, e, n + 2)
  }

  lemma DoShape(s: H.Stmt, n: nat, breakLabel: nat, continueLabel: nat)
    requires s.While? && s.doFirst
    ensures LowerStmt(s, n, breakLabel, continueLabel).code ==
      [NewLabel(n + 1)] + DoBody(s, n).code + [NewLabel(n)] + (DoTest(s, n) + [NewLabel(n + 2)])
  {
    hide LowerExpr, LowerBlock, Load, JumpTrue, NewLabel;
    var c := LowerExpr(s.condition, DoBody(s, n).next);
    DoRegroup([NewLabel(n + 1)], DoBody(s, n).code, NewLabel(n), c.code, Load(T1, c.operand), JumpTrue(n + 1),
              NewLabel(n + 2));
  }

  lemma DoRegroup(a: seq<Instr>, b: seq<Instr>, l: Instr, c: seq<Instr>, load: Instr, jump: Instr, done: Instr)
    ensures a + b + [l] + c + [load, jump, done] == a + b + [l] + (c + [load] + [jump] + [done])
  {
  }

  lemma DoLayout(prog: seq<Instr>, p: nat, s: H.Stmt, n: nat, breakLabel: nat, continueLabel: nat)
    requires s.While? && s.doFirst && At(prog, p, LowerStmt(s, n, breakLabel, continueLabel).code)
    ensures DoAt(prog, p, s, n) && p + |LowerStmt(s, n, breakLabel, continueLabel).code| == DoEnd(s, n, p)
  {
    hide At, Defines, LowerStmt, DoTest, DoBody;
    var body, test := DoBody(s, n).code, DoTest(s, n);
    DoShape(s, n, breakLabel, continueLabel);
    AtSplit4(prog, p, [NewLabel(n + 1)], body, [NewLabel(n)], test + [NewLabel(n + 2)]);
    var q := p + 1 + |body|;
    AtSplit(prog, q + 1, test, [NewLabel(n + 2)]);
    DefinedAt(prog, p, [NewLabel(n + 1)], 0, n + 1);
    DefinedAt(prog, q, [NewLabel(n)], 0, n);
    DefinedAt(prog, q + 1 + |test|, [NewLabel(n + 2)], 0, n + 2);
  }

  /** The exits in force inside a do-while loop at p. */
  function DoExits(s: H.Stmt, n: nat, p: nat): Exits
    requires s.While?
  {
    Exits(n + 2, DoEnd(s, n, p) - 1, n, p + 1 + |DoBody(s, n).code|, true)
  }

  /** What follows the body of a do-while loop. */
  ghost function DoRest(w: World, fuel: nat, s: H.Stmt, b: H.Result): H.Result
    requires fuel > 0 && s.While?
  {
    if !H.EndsTurn(b) then H.AfterLoop(b)
    else
      var c := H.Eval(w, b.locals, b.trace, s.condition);
      if c.Fault? then H.Faulted(b.locals, c.trace)
      else if c.v == 0 then H.Done(H.Normal, b.locals, c.trace)
      else H.Exec(w, fuel - 1, b.locals, c.trace, s)
  }

  lemma DoMeaning(w: World, fuel: nat, locals: map<nat, Word>, trace: seq<Event>, s: H.Stmt)
    requires s.While? && s.doFirst
    ensures H.Exec(w, fuel, locals, trace, s) ==
      if fuel == 0 then H.OutOfFuel else DoRest(w, fuel, s, H.ExecAll(w, fuel - 1, locals, trace, s.body))
  {
    hide H.Eval, H.ExecAll;
  }

  lemma {:induction false} SimDo(prog: seq<Instr>, w: World, fuel: nat, m: Machine, s: H.Stmt, n: nat, p: nat, x: Exits,
                                 most: nat, low: nat, high: nat)
    returns (k: nat)
    requires s.While? && s.doFirst && DoAt(prog, p, s, n) && LoopReady(prog, m, p, s, most, low, high)
    ensures Inside(prog, w, m, k, low, high)
    ensures Ended(fuel, k, m.stack, Run(prog, w, m, k), DoEnd(s, n, p), x, H.Exec(w, fuel, m.locals, m.trace, s))
    decreases fuel, s, 3
  {
    hide Step, Run, Inside, At, UniqueLabels, H.ExprOk, H.StmtsOk, H.Exec, H.ExecAll, LowerBlock, DoTest, Slots,
        BlockSlots,
      Defines, DoRest;
    DoMeaning(w, fuel, m.locals, m.trace, s);
    NoSteps(prog, w, m, low, high);
    if fuel == 0 {
      k := 0;
    } else {
      PassMarker(prog, w, m, 0, p, NewLabel(n + 1), m.trace, low, high);
      k := SimLoopBody(prog, w, fuel, m, 1, s.body, n + 3, DoExits(s, n, p), m.trace, p + 1 + |DoBody(s, n).code|,
                       most, low, high);
      k := SimDoNext(prog, w, fuel, m, k, s, n, p, x, H.ExecAll(w, fuel - 1, m.locals, m.trace, s.body), most, low,
                     high);
    }
  }

  /** From the end of the body of a do-while loop, j steps after m. */
  lemma {:induction false} SimDoNext(prog: seq<Instr>, w: World, fuel: nat, m: Machine, j: nat, s: H.Stmt, n: nat,
                                     p: nat,
                                     x: Exits, b: H.Result, most: nat, low: nat, high: nat)
    returns (k: nat)
    requires fuel > 0 && s.While? && s.doFirst && DoAt(prog, p, s, n) && LoopReady(prog, m, p, s, most, low, high)
    requires j > 0 && Inside(prog, w, m, j, low, high)
    requires Ended(fuel, j, m.stack, Run(prog, w, m, j), p + 1 + |DoBody(s, n).code|, DoExits(s, n, p), b)
    ensures Inside(prog, w, m, k, low, high)
    ensures Ended(fuel, k, m.stack, Run(prog, w, m, k), DoEnd(s, n, p), x, DoRest(w, fuel, s, b))
    decreases fuel - 1, s, 5
  {
    hide Step, Run, Inside, At, UniqueLabels, H.ExprOk, H.StmtsOk, H.Exec, H.Eval, Slots, BlockSlots, Defines, DoTest,
        DoBody;
    if H.EndsTurn(b) {
      var m1 := Run(prog, w, m, j);
      var l := SimDoTest(prog, w, fuel - 1, m1, s, n, p, x, most, low, high);
      NextTurn(prog, w, fuel, m, j, l, DoEnd(s, n, p), x, DoRest(w, fuel, s, b), low, high);
      k := j + l;
    } else {
      k := LeaveLoop(prog, w, fuel, m, j, p + 1 + |DoBody(s, n).code|, n + 2, DoExits(s, n, p), x, b, low, high);
    }
  }

  /** From the condition label of a do-while loop. */
  lemma {:induction false} SimDoTest(prog: seq<Instr>, w: World, fuel: nat, m: Machine, s: H.Stmt, n: nat, p: nat,
                                     x: Exits, most: nat, low: nat, high: nat)
    returns (k: nat)
    requires s.While? && s.doFirst && DoAt(prog, p, s, n)
    requires LoopReady(prog, m, p + 1 + |DoBody(s, n).code|, s, most, low, high)
    ensures Inside(prog, w, m, k, low, high)
    ensures Ended(fuel, k, m.stack, Run(prog, w, m, k), DoEnd(s, n, p), x,
                  DoRest(w, fuel + 1, s, H.Done(H.Normal, m.locals, m.trace)))
    decreases fuel, s, 4
  {
    hide Step, Run, Inside, At, UniqueLabels, H.ExprOk, H.StmtsOk, H.Exec, H.Eval, Slots, BlockSlots, Defines, DoBody,
        TestCode;
    NoSteps(prog, w, m, low, high);
    PassMarker(prog, w, m, 0, p + 1 + |DoBody(s, n).code|, NewLabel(n), m.trace, low, high);
    k := SimTestFrom(prog, w, m, 1, p + 1 + |DoBody(s, n).code| + 1, m.trace, s.condition, DoBody(s, n).next, true,
                     n + 1, p,
                     low, high);
    var c := H.Eval(w, m.locals, m.trace, s.condition);
    if c.Val? {
      if c.v == 0 {
        PassMarker(prog, w, m, k, DoEnd(s, n, p) - 1, NewLabel(n + 2), c.trace, low, high);
        k := k + 1;
      } else {
        k := SimDoAgain(prog, w, fuel, m, k, s, n, p, x, c.trace, most, low, high);
      }
    }
  }

  lemma {:induction false} SimDoAgain(prog: seq<Instr>, w: World, fuel: nat, m: Machine, j: nat, s: H.Stmt, n: nat,
                                      p: nat,
                                      x: Exits, trace: seq<Event>, most: nat, low: nat, high: nat)
    returns (k: nat)
    requires s.While? && s.doFirst && DoAt(prog, p, s, n) && Inside(prog, w, m, j, low, high)
    requires LoopReady(prog, m, p + 1 + |DoBody(s, n).code|, s, most, low, high)
    requires Came(m.stack, Run(prog, w, m, j), p, m.locals, trace)
    ensures Inside(prog, w, m, k, low, high)
    ensures Ended(fuel, k, m.stack, Run(prog, w, m, k), DoEnd(s, n, p), x, H.Exec(w, fuel, m.locals, trace, s))
    decreases fuel, s, 4, 0
  {
    hide Step, Run, Inside, At, UniqueLabels, H.ExprOk, H.StmtsOk, H.Exec, Slots, BlockSlots, Defines, DoBody, DoTest,
        Ended;
    var l := SimDo(prog, w, fuel, Run(prog, w, m, j), s, n, p, x, most, low, high);
    var r := H.Exec(w, fuel, m.locals, trace, s);
    Precede(prog, w, fuel, m, j, l, DoEnd(s, n, p), x, r, low, high);
    k := j + l;
    EndedLater(fuel + j, k, k, m.stack, Run(prog, w, m, k), DoEnd(s, n, p), x, r, fuel);
  }

  // ----- for -----

  function ForInit(s: H.Stmt, n: nat): Lowered
    requires s.For?
  {
    LowerInitializer(s.initializer, n + 3)
  }

  function ForTest(s: H.Stmt, n: nat): seq<Instr>
    requires s.For?
  {
    TestCode(s.condition, ForInit(s, n).next, false, n + 2)
  }

  function ForBody(s: H.Stmt, n: nat): Piece
    requires s.For?
  {
    LowerBlock(s.body, LowerExpr(s.condition, ForInit(s, n).next).next, n + 2, n + 1)
  }

  function ForAdvance(s: H.Stmt, n: nat): seq<Instr>
    requires s.For?
  {
    [Load(T1, Local(s.counter)), Push(T1)] + LowerPushed(s.increment, ForBody(s, n).next).code
    + AdvanceTail(s.counter, s.decrement, n)
  }

  /** The turns of a for loop: from its condition label to its done label. */
  function ForTurns(s: H.Stmt, n: nat): seq<Instr>
    requires s.For?
  {
    [NewLabel(n)] + ForTest(s, n) + ForBody(s, n).code + ([NewLabel(n + 1)] + ForAdvance(s, n) + [NewLabel(n + 2)])
  }

  lemma ForShape(s: H.Stmt, n: nat, breakLabel: nat, continueLabel: nat)
    requires s.For?
    ensures var i := ForInit(s, n);
      LowerStmt(s, n, breakLabel, continueLabel).code == [StartBlock()]
        + (i.code + [Load(T1, i.operand)] + [Store(Local(s.counter), T1)]) + ForTurns(s, n)
        + [Instr(END_BLOCK, Nothing, Nothing)]
  {
    hide LowerExpr, LowerBlock, LowerPushed, AdvanceTail, LowerInitializer;
    var i := ForInit(s, n);
    var c := LowerExpr(s.condition, i.next);
    ForRegroup([StartBlock()], i.code, Load(T1, i.operand), Store(Local(s.counter), T1), NewLabel(n), c.code,
      Load(T1, c.operand), JumpFalse(n + 2), ForBody(s, n).code, NewLabel(n + 1), Load(T1, Local(s.counter)), Push(T1),
      LowerPushed(s.increment, ForBody(s, n).next).code, AdvanceTail(s.counter, s.decrement, n),
      NewLabel(n + 2), Instr(END_BLOCK, Nothing, Nothing));
  }

  lemma ForRegroup(a: seq<Instr>, i: seq<Instr>, l0: Instr, st: Instr, n0: Instr, c: seq<Instr>, l1: Instr, j: Instr,
                   b: seq<Instr>, n1: Instr, l2: Instr, ph: Instr, step: seq<Instr>, tail: seq<Instr>, n2: Instr,
                       e: Instr)
    ensures a + i + [l0, st, n0] + c + [l1, j] + b + [n1, l2, ph] + step + tail + [n2, e]
      == a + (i + [l0] + [st]) + ([n0] + (c + [l1] + [j]) + b + ([n1] + ([l2, ph] + step + tail) + [n2])) + [e]
  {
    ForRegroupEnd(n1, l2, ph, step, tail, n2, e);
    ForRegroupFront(a, i, l0, st, n0, c, l1, j);
    var front := a + (i + [l0] + [st]);
    var test := [n0] + (c + [l1] + [j]);
    var last := [n1] + ([l2, ph] + step + tail) + [n2];
    calc {
      a + i + [l0, st, n0] + c + [l1, j] + b + [n1, l2, ph] + step + tail + [n2, e];
      front + test + b + [n1, l2, ph] + step + tail + [n2, e];
      front + test + b + ([n1, l2, ph] + step + tail + [n2, e]);
      front + test + b + (last + [e]);
      front + (test + b + last) + [e];
    }
  }

  lemma ForRegroupFront(a: seq<Instr>, i: seq<Instr>, l0: Instr, st: Instr, n0: Instr, c: seq<Instr>, l1: Instr,
                        j: Instr)
    ensures a + i + [l0, st, n0] + c + [l1, j] == a + (i + [l0] + [st]) + ([n0] + (c + [l1] + [j]))
  {
  }

  lemma ForRegroupEnd(n1: Instr, l2: Instr, ph: Instr, step: seq<Instr>, tail: seq<Instr>, n2: Instr, e: Instr)
    ensures [n1, l2, ph] + step + tail + [n2, e] == [n1] + ([l2, ph] + step + tail) + [n2] + [e]
  {
  }

  ghost predicate TurnsAt(prog: seq<Instr>, p: nat, s: H.Stmt, n: nat)
    requires s.For?
  {
    var q := p + 1 + |ForTest(s, n)|;
    var r := q + |ForBody(s, n).code|;
    var e := r + 1 + |ForAdvance(s, n)|;
    && At(prog, p, [NewLabel(n)]) && At(prog, p + 1, ForTest(s, n)) && At(prog, q, ForBody(s, n).code)
    && At(prog, r, [NewLabel(n + 1)]) && At(prog, r + 1, ForAdvance(s, n)) && At(prog, e, [NewLabel(n + 2)])
    && Defines(prog, p, n) && Defines(prog, r, n + 1) && Defines(prog, e, n + 2)
  }

  /** The end of the turns of a for loop that start at p. */
  function TurnsEnd(s: H.Stmt, n: nat, p: nat): nat
    requires s.For?
  {
    p + 1 + |ForTest(s, n)| + |ForBody(s, n).code| + 1 + |ForAdvance(s, n)| + 1
  }

  /** The position of the label that advances the iterator. */
  function AdvanceAt(s: H.Stmt, n: nat, p: nat): nat
    requires s.For?
  {
    p + 1 + |ForTest(s, n)| + |ForBody(s, n).code|
  }

  lemma TurnsLayout(prog: seq<Instr>, p: nat, s: H.Stmt, n: nat)
    requires s.For? && At(prog, p, ForTurns(s, n))
    ensures TurnsAt(prog, p, s, n) && p + |ForTurns(s, n)| == TurnsEnd(s, n, p)
  {
    hide At, Defines, ForTest, ForBody, ForAdvance;
    var test, body, advance := ForTest(s, n), ForBody(s, n).code, ForAdvance(s, n);
    AtSplit4(prog, p, [NewLabel(n)], test, body, [NewLabel(n + 1)] + advance + [NewLabel(n + 2)]);
    var r := p + 1 + |test| + |body|;
    AtSplit3(prog, r, [NewLabel(n + 1)], advance, [NewLabel(n + 2)]);
    DefinedAt(prog, p, [NewLabel(n)], 0, n);
    DefinedAt(prog, r, [NewLabel(n + 1)], 0, n + 1);
    DefinedAt(prog, r + 1 + |advance|, [NewLabel(n + 2)], 0, n + 2);
  }

  /** The exits in force inside a for loop whose turns start at p. */
  function ForExits(s: H.Stmt, n: nat, p: nat): Exits
    requires s.For?
  {
    Exits(n + 2, TurnsEnd(s, n, p) - 1, n + 1, AdvanceAt(s, n, p), true)
  }

  lemma AdvanceMeaning(decrement: bool, a: Word, b: Word)
    ensures Alu(if decrement then SUB else ADD, a, b) == Some(H.Advance(a, b, decrement))
  {
  }

  lemma RunAdvanceTail(prog: seq<Instr>, w: World, m: Machine, rest: seq<Word>, a: Word, b: Word, counter: nat,
                       decrement: bool, id: nat, target: nat, low: nat, high: nat)
    returns (k: nat)
    requires Ready(prog, m, AdvanceTail(counter, decrement, id)) && Defines(prog, target, id)
    requires m.stack == rest + [a] + [b] && low <= |rest| && |rest| + 2 <= high
    ensures Inside(prog, w, m, k, low, high)
    ensures Came(rest, Run(prog, w, m, k), target, m.locals[counter := H.Advance(a, b, decrement)], m.trace)
  {
    hide Step, Alu, H.Advance, UniqueLabels, Defines;
    var code := AdvanceTail(counter, decrement, id);
    AtIndex(prog, m.pc, code);
    assert prog[m.pc + 0] == code[0] && prog[m.pc + 1] == code[1] && prog[m.pc + 2] == code[2]
      && prog[m.pc + 3] == code[3] && prog[m.pc + 4] == code[4];
    AdvanceMeaning(decrement, a, b);
    k := 0;
    StepPopSecond(prog, w, m, rest + [a], b);
    Extend(prog, w, m, k, low, high);
    k := k + 1;
    StepPopFirst(prog, w, Run(prog, w, m, k), rest, a);
    Extend(prog, w, m, k, low, high);
    k := k + 1;
    StepMath(prog, w, Run(prog, w, m, k), if decrement then SUB else ADD, Some(H.Advance(a, b, decrement)));
    Extend(prog, w, m, k, low, high);
    k := k + 1;
    StepStoreLocal(prog, w, Run(prog, w, m, k), counter);
    Extend(prog, w, m, k, low, high);
    k := k + 1;
    StepJump(prog, w, Run(prog, w, m, k), Jump(id), id, target);
    Extend(prog, w, m, k, low, high);
    k := k + 1;
  }

  /** The iterator has been advanced, or the step faulted. */
  ghost predicate Advanced(w: World, m: Machine, m': Machine, target: nat, s: H.Stmt, step: H.Value)
    requires s.For?
  {
    if step.Fault? then FaultedFrom(m, m', step.trace)
    else Came(m.stack, m', target, m.locals[s.counter := H.Advance(ReadLocal(w, m.locals, s.counter), step.v,
                                                                   s.decrement)], step.trace)
  }

  lemma SimAdvance(prog: seq<Instr>, w: World, m: Machine, s: H.Stmt, n: nat, target: nat, low: nat, high: nat)
    returns (k: nat)
    requires s.For? && H.ExprOk(s.increment) && Room(m, 1 + PushedSlots(s.increment), low, high)
    requires Ready(prog, m, ForAdvance(s, n)) && Defines(prog, target, n)
    ensures Inside(prog, w, m, k, low, high)
    ensures Advanced(w, m, Run(prog, w, m, k), target, s, H.Eval(w, m.locals, m.trace, s.increment))
  {
    hide Step, Run, Inside, At, UniqueLabels, H.ExprOk, H.Eval, LowerPushed, AdvanceTail, PushedSlots, Load, Push,
        Defines,
      ForBody, H.Advance;
    var step := LowerPushed(s.increment, ForBody(s, n).next).code;
    var tail := AdvanceTail(s.counter, s.decrement, n);
    Associate([Load(T1, Local(s.counter)), Push(T1)], step, tail);
    AtSplit(prog, m.pc, [Load(T1, Local(s.counter)), Push(T1)], step + tail);
    var a := ReadLocal(w, m.locals, s.counter);
    PushedSlotsPositive(s.increment);
    k := RunLoadPush(prog, w, m, Local(s.counter), a, low, high);
    var j := SimAdvanceRest(prog, w, Run(prog, w, m, k), m.stack, a, s, ForBody(s, n).next, n, target, low, high);
    Sequence(prog, w, m, k, j, low, high);
    k := k + j;
  }

  /** With the iterator's value on the stack: the step, then the new value. */
  lemma SimAdvanceRest(prog: seq<Instr>, w: World, m: Machine, rest: seq<Word>, a: Word, s: H.Stmt, n: nat, id: nat,
                       target: nat, low: nat, high: nat)
    returns (k: nat)
    requires s.For? && H.ExprOk(s.increment)
    requires m.stack == rest + [a] && low <= |rest| && |rest| + 1 + PushedSlots(s.increment) <= high
    requires Ready(prog, m, LowerPushed(s.increment, n).code + AdvanceTail(s.counter, s.decrement, id))
    requires Defines(prog, target, id)
    ensures Inside(prog, w, m, k, low, high)
    ensures var step := H.Eval(w, m.locals, m.trace, s.increment);
      if step.Fault? then FaultedFrom(m, Run(prog, w, m, k), step.trace)
      else Came(rest, Run(prog, w, m, k), target, m.locals[s.counter := H.Advance(a, step.v, s.decrement)], step.trace)
  {
    hide Step, Run, Inside, At, UniqueLabels, H.ExprOk, H.Eval, LowerPushed, AdvanceTail, PushedSlots, Defines,
        H.Advance;
    PushedSlotsPositive(s.increment);
    AtSplit(prog, m.pc, LowerPushed(s.increment, n).code, AdvanceTail(s.counter, s.decrement, id));
    k := SimPushed(prog, w, m, s.increment, n, low, high);
    var step := H.Eval(w, m.locals, m.trace, s.increment);
    if step.Val? {
      var j := RunAdvanceTail(prog, w, Run(prog, w, m, k), rest, a, step.v, s.counter, s.decrement, id, target, low,
                              high);
      Sequence(prog, w, m, k, j, low, high);
      k := k + j;
    }
  }

  ghost predicate ForReady(prog: seq<Instr>, m: Machine, p: nat, s: H.Stmt, most: nat, low: nat, high: nat)
    requires s.For?
  {
    LoopReady(prog, m, p, s, most, low, high) && H.ExprOk(s.increment) && 1 + PushedSlots(s.increment) <= most
  }

  /** One turn of a for loop after its body. */
  ghost function TurnRest(w: World, fuel: nat, s: H.Stmt, b: H.Result): H.Result
    requires fuel > 0 && s.For?
  {
    if !H.EndsTurn(b) then H.AfterLoop(b) else AdvanceRest(w, fuel, s, b.locals, b.trace)
  }

  ghost function AdvanceRest(w: World, fuel: nat, s: H.Stmt, locals: map<nat, Word>, trace: seq<Event>): H.Result
    requires fuel > 0 && s.For?
  {
    var step := H.Eval(w, locals, trace, s.increment);
    if step.Fault? then H.Faulted(locals, step.trace)
    else H.ExecTurns(w, fuel - 1, locals[s.counter := H.Advance(ReadLocal(w, locals, s.counter), step.v, s.decrement)],
                     step.trace, s)
  }

  lemma TurnsMeaning(w: World, fuel: nat, locals: map<nat, Word>, trace: seq<Event>, s: H.Stmt)
    requires s.For?
    ensures fuel == 0 ==> H.ExecTurns(w, fuel, locals, trace, s) == H.OutOfFuel
    ensures fuel > 0 ==>
      var c := H.Eval(w, locals, trace, s.condition);
      H.ExecTurns(w, fuel, locals, trace, s) ==
        if c.Fault? then H.Faulted(locals, c.trace)
        else if c.v == 0 then H.Done(H.Normal, locals, c.trace)
        else TurnRest(w, fuel, s, H.ExecAll(w, fuel - 1, locals, c.trace, s.body))
  {
    hide H.Eval, H.ExecAll, H.Advance;
  }

  lemma {:induction false} SimTurns(prog: seq<Instr>, w: World, fuel: nat, m: Machine, s: H.Stmt, n: nat, p: nat,
                                    x: Exits,
                                    most: nat, low: nat, high: nat)
    returns (k: nat)
    requires s.For? && TurnsAt(prog, p, s, n) && ForReady(prog, m, p, s, most, low, high)
    ensures Inside(prog, w, m, k, low, high)
    ensures Ended(fuel, k, m.stack, Run(prog, w, m, k), TurnsEnd(s, n, p), x, H.ExecTurns(w, fuel, m.locals, m.trace,
        s))
    decreases fuel, s, 3
  {
    hide Step, Run, Inside, At, UniqueLabels, H.ExprOk, H.StmtsOk, H.ExecTurns, H.ExecAll, TestCode,
      Slots, BlockSlots, Defines, H.Eval, ForBody, ForAdvance, TurnRest, PushedSlots, ForInit;
    TurnsMeaning(w, fuel, m.locals, m.trace, s);
    NoSteps(prog, w, m, low, high);
    k := 0;
    if fuel > 0 {
      PassMarker(prog, w, m, 0, p, NewLabel(n), m.trace, low, high);
      k := SimTestFrom(prog, w, m, 1, p + 1, m.trace, s.condition, ForInit(s, n).next, false, n + 2, TurnsEnd(s, n,
          p) - 1,
                       low, high);
      var c := H.Eval(w, m.locals, m.trace, s.condition);
      if c.Val? {
        k := SimTurnBody(prog, w, fuel, m, k, s, n, p, x, c, most, low, high);
      }
    }
  }

  /** After the test of a for loop, j steps after m. */
  lemma {:induction false} SimTurnBody(prog: seq<Instr>, w: World, fuel: nat, m: Machine, j: nat, s: H.Stmt, n: nat,
                                       p: nat,
                                       x: Exits, c: H.Value, most: nat, low: nat, high: nat)
    returns (k: nat)
    requires fuel > 0 && c.Val? && s.For? && TurnsAt(prog, p, s, n) && ForReady(prog, m, p, s, most, low, high)
    requires j > 0 && Inside(prog, w, m, j, low, high)
    requires Came(m.stack, Run(prog, w, m, j), if c.v == 0 then TurnsEnd(s, n, p) - 1 else p + 1 + |ForTest(s, n)|,
                  m.locals, c.trace)
    ensures Inside(prog, w, m, k, low, high)
    ensures Ended(fuel, k, m.stack, Run(prog, w, m, k), TurnsEnd(s, n, p), x,
                  if c.v == 0 then H.Done(H.Normal, m.locals, c.trace)
                  else TurnRest(w, fuel, s, H.ExecAll(w, fuel - 1, m.locals, c.trace, s.body)))
    decreases fuel, s, 1
  {
    hide Step, Run, Inside, At, UniqueLabels, H.ExprOk, H.StmtsOk, H.ExecAll, Slots, BlockSlots, Defines, ForAdvance,
      TurnRest, PushedSlots, ForInit, ForTest, LowerBlock;
    if c.v == 0 {
      PassMarker(prog, w, m, j, TurnsEnd(s, n, p) - 1, NewLabel(n + 2), c.trace, low, high);
      k := j + 1;
    } else {
      k := SimLoopBody(prog, w, fuel, m, j, s.body, LowerExpr(s.condition, ForInit(s, n).next).next, ForExits(s, n, p),
                       c.trace, AdvanceAt(s, n, p), most, low, high);
      k := SimTurnNext(prog, w, fuel, m, k, s, n, p, x, H.ExecAll(w, fuel - 1, m.locals, c.trace, s.body), most, low,
                       high);
    }
  }

  /** From the end of the body of a for loop, j steps after m. */
  lemma {:induction false} SimTurnNext(prog: seq<Instr>, w: World, fuel: nat, m: Machine, j: nat, s: H.Stmt, n: nat,
                                       p: nat,
                                       x: Exits, b: H.Result, most: nat, low: nat, high: nat)
    returns (k: nat)
    requires fuel > 0 && s.For? && TurnsAt(prog, p, s, n) && ForReady(prog, m, p, s, most, low, high)
    requires j > 0 && Inside(prog, w, m, j, low, high)
    requires Ended(fuel, j, m.stack, Run(prog, w, m, j), AdvanceAt(s, n, p), ForExits(s, n, p), b)
    ensures Inside(prog, w, m, k, low, high)
    ensures Ended(fuel, k, m.stack, Run(prog, w, m, k), TurnsEnd(s, n, p), x, TurnRest(w, fuel, s, b))
    decreases fuel - 1, s, 6
  {
    hide Step, Run, Inside, At, UniqueLabels, H.ExprOk, H.StmtsOk, Slots, BlockSlots, Defines, ForAdvance, ForBody,
      PushedSlots, ForTest, AdvanceRest;
    if H.EndsTurn(b) {
      var m1 := Run(prog, w, m, j);
      var l := SimNextAdvance(prog, w, fuel - 1, m1, s, n, p, x, most, low, high);
      NextTurn(prog, w, fuel, m, j, l, TurnsEnd(s, n, p), x, TurnRest(w, fuel, s, b), low, high);
      k := j + l;
    } else {
      k := LeaveLoop(prog, w, fuel, m, j, AdvanceAt(s, n, p), n + 2, ForExits(s, n, p), x, b, low, high);
    }
  }

  /** From the advance label of a for loop. */
  lemma {:induction false} SimNextAdvance(prog: seq<Instr>, w: World, fuel: nat, m: Machine, s: H.Stmt, n: nat, p: nat,
                                          x: Exits, most: nat, low: nat, high: nat)
    returns (k: nat)
    requires s.For? && TurnsAt(prog, p, s, n) && ForReady(prog, m, AdvanceAt(s, n, p), s, most, low, high)
    ensures Inside(prog, w, m, k, low, high)
    ensures Ended(fuel, k, m.stack, Run(prog, w, m, k), TurnsEnd(s, n, p), x, AdvanceRest(w, fuel + 1, s, m.locals,
        m.trace))
    decreases fuel, s, 5
  {
    hide Step, Run, Inside, At, UniqueLabels, H.ExprOk, H.StmtsOk, H.ExecTurns, H.Eval, Slots, BlockSlots, Defines,
      ForAdvance, ForBody, PushedSlots, ForTest, H.Advance;
    NoSteps(prog, w, m, low, high);
    PassMarker(prog, w, m, 0, AdvanceAt(s, n, p), NewLabel(n + 1), m.trace, low, high);
    var m1 := Run(prog, w, m, 1);
    k := SimAdvance(prog, w, m1, s, n, p, low, high);
    Sequence(prog, w, m, 1, k, low, high);
    k := 1 + k;
    var step := H.Eval(w, m.locals, m.trace, s.increment);
    if step.Val? {
      k := SimTurnsAgain(prog, w, fuel, m, k, s, n, p, x,
                         m.locals[s.counter := H.Advance(ReadLocal(w, m.locals, s.counter), step.v, s.decrement)],
                         step.trace, most, low, high);
    }
  }

  lemma {:induction false} SimTurnsAgain(prog: seq<Instr>, w: World, fuel: nat, m: Machine, j: nat, s: H.Stmt, n: nat,
                                         p: nat,
                                         x: Exits, locals: map<nat, Word>, trace: seq<Event>, most: nat, low: nat,
                                             high: nat)
    returns (k: nat)
    requires s.For? && TurnsAt(prog, p, s, n) && Inside(prog, w, m, j, low, high)
    requires ForReady(prog, m, AdvanceAt(s, n, p), s, most, low, high)
    requires Came(m.stack, Run(prog, w, m, j), p, locals, trace)
    ensures Inside(prog, w, m, k, low, high)
    ensures Ended(fuel, k, m.stack, Run(prog, w, m, k), TurnsEnd(s, n, p), x, H.ExecTurns(w, fuel, locals, trace, s))
    decreases fuel, s, 4
  {
    hide Step, Run, Inside, At, UniqueLabels, H.ExprOk, H.StmtsOk, H.ExecTurns, Slots, BlockSlots, Defines,
      ForAdvance, ForBody, PushedSlots, ForTest, Ended;
    var l := SimTurns(prog, w, fuel, Run(prog, w, m, j), s, n, p, x, most, low, high);
    var r := H.ExecTurns(w, fuel, locals, trace, s);
    Precede(prog, w, fuel, m, j, l, TurnsEnd(s, n, p), x, r, low, high);
    k := j + l;
    EndedLater(fuel + j, k, k, m.stack, Run(prog, w, m, k), TurnsEnd(s, n, p), x, r, fuel);
  }

  ghost predicate Initialised(w: World, m: Machine, m': Machine, p: nat, s: H.Stmt, v: H.Value)
    requires s.For?
  {
    if v.Fault? then FaultedFrom(m, m', v.trace) else Came(m.stack, m', p, m.locals[s.counter := v.v], v.trace)
  }

  /** The value of the initializer in the first temporary. */
  lemma SimInitializer(prog: seq<Instr>, w: World, m: Machine, e: Option<H.Expr>, n: nat, low: nat, high: nat)
    returns (k: nat)
    requires H.OptionOk(e) && Room(m, OptionSlots(e), low, high)
    requires var i := LowerInitializer(e, n); Ready(prog, m, i.code + [Load(T1, i.operand)])
    ensures Inside(prog, w, m, k, low, high)
    ensures Tested(m, Run(prog, w, m, k), m.pc + |LowerInitializer(e, n).code| + 1, m.stack,
                   H.EvalInitializer(w, m.locals, m.trace, e))
  {
    hide Step, Run, Inside, At, UniqueLabels, H.ExprOk, H.Eval, LowerExpr, Slots, Load;
    if e.None? {
      assert [] + [Load(T1, Nothing)] == [Load(T1, Nothing)];
      k := RunLoad(prog, w, m, Nothing, 0, low, high);
    } else {
      k := SimLoaded(prog, w, m, e.value, n, low, high);
    }
  }

  lemma SimForInit(prog: seq<Instr>, w: World, m: Machine, s: H.Stmt, n: nat, low: nat, high: nat)
    returns (k: nat)
    requires s.For? && H.OptionOk(s.initializer) && Room(m, OptionSlots(s.initializer), low, high)
    requires var i := ForInit(s, n); Ready(prog, m, i.code + [Load(T1, i.operand)] + [Store(Local(s.counter), T1)])
    ensures Inside(prog, w, m, k, low, high)
    ensures Initialised(w, m, Run(prog, w, m, k), m.pc + |ForInit(s, n).code| + 2, s,
                        H.EvalInitializer(w, m.locals, m.trace, s.initializer))
  {
    hide Step, Run, Inside, At, UniqueLabels, H.OptionOk, H.EvalInitializer, LowerInitializer, OptionSlots, Load, Store;
    var i := ForInit(s, n);
    AtSplit(prog, m.pc, i.code + [Load(T1, i.operand)], [Store(Local(s.counter), T1)]);
    k := SimInitializer(prog, w, m, s.initializer, n + 3, low, high);
    if H.EvalInitializer(w, m.locals, m.trace, s.initializer).Val? {
      var j := RunStoreLocal(prog, w, Run(prog, w, m, k), s.counter, low, high);
      Sequence(prog, w, m, k, j, low, high);
      k := k + j;
    }
  }

  lemma ForMeaning(w: World, fuel: nat, locals: map<nat, Word>, trace: seq<Event>, s: H.Stmt)
    requires s.For?
    ensures var v := H.EvalInitializer(w, locals, trace, s.initializer);
      H.Exec(w, fuel, locals, trace, s) ==
        if v.Fault? then H.Faulted(locals, v.trace) else H.ExecTurns(w, fuel, locals[s.counter := v.v], v.trace, s)
  {
    hide H.EvalInitializer, H.ExecTurns;
  }

  /** The code of a for loop in its three parts. */
  ghost predicate ForAt(prog: seq<Instr>, p: nat, s: H.Stmt, n: nat)
    requires s.For?
  {
    var i := ForInit(s, n);
    var q := p + 1 + |i.code| + 2;
    && At(prog, p, [StartBlock()]) && At(prog, p + 1, i.code + [Load(T1, i.operand)] + [Store(Local(s.counter), T1)])
    && TurnsAt(prog, q, s, n) && At(prog, TurnsEnd(s, n, q), [Instr(END_BLOCK, Nothing, Nothing)])
  }

  lemma ForLayout(prog: seq<Instr>, p: nat, s: H.Stmt, n: nat, breakLabel: nat, continueLabel: nat)
    requires s.For? && At(prog, p, LowerStmt(s, n, breakLabel, continueLabel).code)
    ensures ForAt(prog, p, s, n)
    ensures p + |LowerStmt(s, n, breakLabel, continueLabel).code| == TurnsEnd(s, n, p + 1 + |ForInit(s,
        n).code| + 2) + 1
  {
    hide At, LowerStmt, ForInit, ForTurns, TurnsAt, TurnsEnd, StartBlock, Load, Store;
    ForShape(s, n, breakLabel, continueLabel);
    var i := ForInit(s, n);
    var init := i.code + [Load(T1, i.operand)] + [Store(Local(s.counter), T1)];
    AtSplit4(prog, p, [StartBlock()], init, ForTurns(s, n), [Instr(END_BLOCK, Nothing, Nothing)]);
    TurnsLayout(prog, p + 1 + |i.code| + 2, s, n);
  }

  ghost predicate ForOk(s: H.Stmt, most: nat)
    requires s.For?
  {
    && H.OptionOk(s.initializer) && H.ExprOk(s.condition) && H.ExprOk(s.increment) && H.StmtsOk(s.body, true)
    && OptionSlots(s.initializer) <= most && Slots(s.condition) <= most && 1 + PushedSlots(s.increment) <= most
    && BlockSlots(s.body) <= most
  }

  lemma {:induction false} SimFor(prog: seq<Instr>, w: World, fuel: nat, m: Machine, s: H.Stmt, n: nat, p: nat,
                                  x: Exits,
                                  most: nat, low: nat, high: nat)
    returns (k: nat)
    requires s.For? && ForAt(prog, p, s, n) && ForOk(s, most)
    requires UniqueLabels(prog) && Came(m.stack, m, p, m.locals, m.trace) && Room(m, most, low, high)
    ensures Inside(prog, w, m, k, low, high)
    ensures Ended(fuel, k, m.stack, Run(prog, w, m, k), TurnsEnd(s, n, p + 1 + |ForInit(s, n).code| + 2) + 1, x,
                  H.Exec(w, fuel, m.locals, m.trace, s))
    decreases fuel, s, 7
  {
    hide Step, Run, Inside, At, UniqueLabels, H.OptionOk, H.ExprOk, H.StmtsOk, H.ExecTurns, H.EvalInitializer, H.Exec,
      OptionSlots, Slots, BlockSlots, PushedSlots, Load, Store, ForInit, TurnsAt, TurnsEnd, StartBlock;
    ForMeaning(w, fuel, m.locals, m.trace, s);
    k := RunStart(prog, w, m, low, high);
    var j := SimForInit(prog, w, Run(prog, w, m, k), s, n, low, high);
    Sequence(prog, w, m, k, j, low, high);
    k := k + j;
    var v := H.EvalInitializer(w, m.locals, m.trace, s.initializer);
    if v.Val? {
      k := SimForTurns(prog, w, fuel, m, k, s, n, p + 1 + |ForInit(s, n).code| + 2, x, m.locals[s.counter := v.v],
                       v.trace,
                       most, low, high);
    }
  }

  /** From the first turn of a for loop, j steps after m. */
  lemma {:induction false} SimForTurns(prog: seq<Instr>, w: World, fuel: nat, m: Machine, j: nat, s: H.Stmt, n: nat,
                                       q: nat,
                                       x: Exits, locals: map<nat, Word>, trace: seq<Event>, most: nat, low: nat,
                                           high: nat)
    returns (k: nat)
    requires s.For? && TurnsAt(prog, q, s, n) && ForOk(s, most)
    requires At(prog, TurnsEnd(s, n, q), [Instr(END_BLOCK, Nothing, Nothing)])
    requires UniqueLabels(prog) && Room(m, most, low, high) && Inside(prog, w, m, j, low, high)
    requires Came(m.stack, Run(prog, w, m, j), q, locals, trace)
    ensures Inside(prog, w, m, k, low, high)
    ensures Ended(fuel, k, m.stack, Run(prog, w, m, k), TurnsEnd(s, n, q) + 1, x, H.ExecTurns(w, fuel, locals, trace,
        s))
    decreases fuel, s, 6
  {
    hide Step, Run, Inside, At, UniqueLabels, H.OptionOk, H.ExprOk, H.StmtsOk, H.ExecTurns,
      OptionSlots, Slots, BlockSlots, PushedSlots, TurnsAt, TurnsEnd, Ended;
    var l := SimTurns(prog, w, fuel, Run(prog, w, m, j), s, n, q, x, most, low, high);
    var r := H.ExecTurns(w, fuel, locals, trace, s);
    Precede(prog, w, fuel, m, j, l, TurnsEnd(s, n, q), x, r, low, high);
    k := j + l;
    EndedLater(fuel + j, k, k, m.stack, Run(prog, w, m, k), TurnsEnd(s, n, q), x, r, fuel);
    k := CloseWith(prog, w, fuel, m, k, TurnsEnd(s, n, q), Instr(END_BLOCK, Nothing, Nothing), x, r, low, high);
  }

  // ----- All statements -----

  lemma SimDeclare(prog: seq<Instr>, w: World, fuel: nat, m: Machine, s: H.Stmt, n: nat, x: Exits, low: nat, high: nat)
    returns (k: nat)
    requires s.Declare? && H.OptionOk(s.initial) && Room(m, OptionSlots(s.initial), low, high)
    requires Ready(prog, m, LowerStmt(s, n, x.breakLabel, x.continueLabel).code)
    ensures Inside(prog, w, m, k, low, high)
    ensures Ended(fuel, k, m.stack, Run(prog, w, m, k), m.pc + |LowerStmt(s, n, x.breakLabel, x.continueLabel).code|, x,
                  H.Exec(w, fuel, m.locals, m.trace, s))
  {
    hide Step, Run, Inside, At, UniqueLabels, H.ExprOk, H.Store, LowerStored, Slots, Store;
    if s.initial.None? {
      k := RunDeclare(prog, w, m, s.uid, low, high);
    } else {
      k := SimStored(prog, w, fuel, m, s.initial.value, s.uid, n, x, low, high);
    }
  }

  lemma SimCallStmt(prog: seq<Instr>, w: World, fuel: nat, m: Machine, s: H.Stmt, n: nat, x: Exits, low: nat, high: nat)
    returns (k: nat)
    requires s.CallStmt? && H.ExprOk(H.Call(s.callee, s.arguments)) && Room(m, Slots(H.Call(s.callee, s.arguments)),
                                                                            low, high)
    requires Ready(prog, m, LowerStmt(s, n, x.breakLabel, x.continueLabel).code)
    ensures Inside(prog, w, m, k, low, high)
    ensures Ended(fuel, k, m.stack, Run(prog, w, m, k), m.pc + |LowerStmt(s, n, x.breakLabel, x.continueLabel).code|, x,
                  H.Exec(w, fuel, m.locals, m.trace, s))
  {
    hide Step, Run, Inside, At, UniqueLabels, H.ExprOk, H.Eval, LowerExpr, Slots, Read;
    k := SimExpr(prog, w, m, H.Call(s.callee, s.arguments), n, low, high);
  }

  lemma {:induction false} SimLoop(prog: seq<Instr>, w: World, fuel: nat, m: Machine, s: H.Stmt, n: nat, x: Exits,
                                   most: nat, low: nat, high: nat)
    returns (k: nat)
    requires s.While? && H.ExprOk(s.condition) && H.StmtsOk(s.body, true)
    requires Slots(s.condition) <= most && BlockSlots(s.body) <= most
    requires Start(prog, m, LowerStmt(s, n, x.breakLabel, x.continueLabel).code, x, most, low, high)
    ensures Inside(prog, w, m, k, low, high)
    ensures Ended(fuel, k, m.stack, Run(prog, w, m, k), m.pc + |LowerStmt(s, n, x.breakLabel, x.continueLabel).code|, x,
                  H.Exec(w, fuel, m.locals, m.trace, s))
    decreases fuel, s, 7
  {
    hide Step, Run, Inside, At, UniqueLabels, H.ExprOk, H.StmtsOk, H.Exec, LowerStmt, Slots, BlockSlots, WhileAt, DoAt,
      Ended, WhileEnd, DoEnd;
    if s.doFirst {
      DoLayout(prog, m.pc, s, n, x.breakLabel, x.continueLabel);
      k := SimDo(prog, w, fuel, m, s, n, m.pc, x, most, low, high);
    } else {
      WhileLayout(prog, m.pc, s, n, x.breakLabel, x.continueLabel);
      k := SimWhile(prog, w, fuel, m, s, n, m.pc, x, most, low, high);
    }
  }

  lemma {:induction false} SimForStmt(prog: seq<Instr>, w: World, fuel: nat, m: Machine, s: H.Stmt, n: nat, x: Exits,
                                      most: nat, low: nat, high: nat)
    returns (k: nat)
    requires s.For? && ForOk(s, most)
    requires Start(prog, m, LowerStmt(s, n, x.breakLabel, x.continueLabel).code, x, most, low, high)
    ensures Inside(prog, w, m, k, low, high)
    ensures Ended(fuel, k, m.stack, Run(prog, w, m, k), m.pc + |LowerStmt(s, n, x.breakLabel, x.continueLabel).code|, x,
                  H.Exec(w, fuel, m.locals, m.trace, s))
    decreases fuel, s, 8
  {
    hide Step, Run, Inside, At, UniqueLabels, H.Exec, LowerStmt, ForAt, ForOk, Ended, TurnsEnd, ForInit;
    ForLayout(prog, m.pc, s, n, x.breakLabel, x.continueLabel);
    k := SimFor(prog, w, fuel, m, s, n, m.pc, x, most, low, high);
  }

  /** What the parts of a well-formed statement satisfy. */
  lemma StmtParts(s: H.Stmt, inLoop: bool, most: nat)
    requires H.StmtOk(s, inLoop) && StmtSlots(s) <= most
    ensures s.If? ==>
      && H.ExprOk(s.condition) && H.StmtsOk(s.body, inLoop) && H.StmtsOk(s.otherwise, inLoop)
      && Slots(s.condition) <= most && BlockSlots(s.body) <= most && BlockSlots(s.otherwise) <= most
    ensures s.While? ==>
      && H.ExprOk(s.condition) && H.StmtsOk(s.body, true)
      && Slots(s.condition) <= most && BlockSlots(s.body) <= most
    ensures s.For? ==> ForOk(s, most)
    ensures s.Block? ==> H.StmtsOk(s.body, inLoop) && BlockSlots(s.body) <= most
  {
    hide H.ExprOk, Slots, BlockSlots, PushedSlots;
  }

  lemma {:induction false} SimCompound(prog: seq<Instr>, w: World, fuel: nat, m: Machine, s: H.Stmt, n: nat, x: Exits,
                                       most: nat, low: nat, high: nat)
    returns (k: nat)
    requires s.Block? || s.If? || s.While? || s.For?
    requires H.StmtOk(s, x.inLoop) && StmtSlots(s) <= most
    requires Start(prog, m, LowerStmt(s, n, x.breakLabel, x.continueLabel).code, x, most, low, high)
    ensures Inside(prog, w, m, k, low, high)
    ensures Ended(fuel, k, m.stack, Run(prog, w, m, k), m.pc + |LowerStmt(s, n, x.breakLabel, x.continueLabel).code|, x,
                  H.Exec(w, fuel, m.locals, m.trace, s))
    decreases fuel, s, 9
  {
    hide Step, Run, Inside, H.StmtOk, H.ExprOk, H.StmtsOk, H.Exec, LowerStmt, StmtSlots, Slots, BlockSlots, ForOk,
        Ended, Start;
    StmtParts(s, x.inLoop, most);
    match s
    case Block(body) =>
      BlockMeaning(w, fuel, m, s, n, x);
      k := SimBlock(prog, w, fuel, m, body, n, x, most, low, high);
    case If(_, _, otherwise) =>
      if otherwise == [] {
        k := SimIf(prog, w, fuel, m, s, n, x, most, low, high);
      } else {
        k := SimIfElse(prog, w, fuel, m, s, n, x, most, low, high);
      }
    case While(_, _, _) => k := SimLoop(prog, w, fuel, m, s, n, x, most, low, high);
    case For(_, _, _, _, _, _) => k := SimForStmt(prog, w, fuel, m, s, n, x, most, low, high);
  }

  lemma BlockMeaning(w: World, fuel: nat, m: Machine, s: H.Stmt, n: nat, x: Exits)
    requires s.Block?
    ensures H.Exec(w, fuel, m.locals, m.trace, s) == H.ExecAll(w, fuel, m.locals, m.trace, s.body)
    ensures LowerStmt(s, n, x.breakLabel, x.continueLabel) == LowerBlock(s.body, n, x.breakLabel, x.continueLabel)
  {
    hide H.ExecAll, LowerBlock;
  }

  /** The simulation: every terminating run of a statement is matched by a run of its code that ends
      at the same exit with the same locals and calls and the stack as it was; a source run that is
      still going after `fuel` turns is matched by at least `fuel` steps. */
  lemma {:induction false} SimStmt(prog: seq<Instr>, w: World, fuel: nat, m: Machine, s: H.Stmt, n: nat, x: Exits,
                                   most: nat, low: nat, high: nat)
    returns (k: nat)
    requires H.StmtOk(s, x.inLoop) && StmtSlots(s) <= most
    requires Start(prog, m, LowerStmt(s, n, x.breakLabel, x.continueLabel).code, x, most, low, high)
    ensures Inside(prog, w, m, k, low, high)
    ensures Ended(fuel, k, m.stack, Run(prog, w, m, k), m.pc + |LowerStmt(s, n, x.breakLabel, x.continueLabel).code|, x,
                  H.Exec(w, fuel, m.locals, m.trace, s))
    decreases fuel, s, 10
  {
    hide Step, Run, At, UniqueLabels, H.ExprOk, LowerBlock, LowerStored, LowerExpr, LowerPushed, Slots, BlockSlots,
        Defines,
      H.ExecAll, H.ExecTurns, H.Eval, H.Store, H.EvalInitializer, LowerInitializer, AdvanceTail, PushedSlots;
    match s
    case Skip => k := 0; NoSteps(prog, w, m, low, high);
    case Declare(_, _) => k := SimDeclare(prog, w, fuel, m, s, n, x, low, high);
    case Assign(uid, value) => k := SimStored(prog, w, fuel, m, value, uid, n, x, low, high);
    case CallStmt(_, _) => k := SimCallStmt(prog, w, fuel, m, s, n, x, low, high);
    case Break => k := RunLeave(prog, w, m, x.breakLabel, x.atBreak, low, high);
    case Continue => k := RunLeave(prog, w, m, x.continueLabel, x.atContinue, low, high);
    case Return(_) => k := SimReturn(prog, w, fuel, m, s, n, x, low, high);
    case _ => k := SimCompound(prog, w, fuel, m, s, n, x, most, low, high);
  }
}
