/** The programs whose stack height agrees with the tracker at every jump: exactly those whose breaks
    and continues skip no block that reserved stack. */
module StackAgreement {
  import opened Words
  import opened Environment
  import opened Lir
  import opened Lowering
  import opened FrameTracking
  import opened StackHeights
  import opened Runs
  import L = Liveness
  import FunctionSim
  import H = Hir

  // ----- What statements do to the frame -----

  /** A variable gets its place at the first store to it. */
  function AfterLocal(f: Frame, uid: nat): Frame {
    if uid in f.offsets then f else Allocated(f, uid, WORD_SIZE)
  }

  function AfterEnd(f: Frame): Frame {
    if f.cache == [] then f else Ended(f, false)
  }

  function AfterStmt(s: H.Stmt, f: Frame): Frame
    decreases s
  {
    match s
    case Skip => f
    case Block(body) => AfterBlock(body, f)
    case Declare(uid, _) => AfterLocal(f, uid)
    case Assign(uid, _) => AfterLocal(f, uid)
    case CallStmt(_, _) => f
    case If(_, body, otherwise) =>
      var g := AfterBlock(body, f);
      if otherwise == [] then g else AfterBlock(otherwise, g)
    case While(_, body, _) => AfterBlock(body, f)
    case For(counter, _, _, _, _, body) => AfterEnd(AfterBlock(body, AfterLocal(Pushed(f), counter)))
    case Break => f.(used := f.reserved)
    case Continue => f.(used := f.reserved)
    case Return(_) => f
  }

  function AfterBlock(ss: seq<H.Stmt>, f: Frame): Frame
    decreases ss, 1
  {
    AfterEnd(AfterAll(ss, Pushed(f)))
  }

  function AfterAll(ss: seq<H.Stmt>, f: Frame): Frame
    decreases ss, 0
  {
    if ss == [] then f else AfterAll(ss[1..], AfterStmt(ss[0], f))
  }

  /** Given what is reserved where `break` and `continue` go: every break and continue leaves from a
      block that was opened with as much reserved, so that the blocks between reserved nothing. */
  predicate SkipsNothing(s: H.Stmt, f: Frame, atBreak: int, atContinue: int)
    decreases s
  {
    match s
    case Block(body) => BlockSkipsNothing(body, f, atBreak, atContinue)
    case If(_, body, otherwise) =>
      && BlockSkipsNothing(body, f, atBreak, atContinue)
      && (otherwise != [] ==> BlockSkipsNothing(otherwise, AfterBlock(body, f), atBreak, atContinue))
    case While(_, body, _) => BlockSkipsNothing(body, f, f.reserved, f.reserved)
    case For(counter, _, _, _, _, body) =>
      var g := AfterLocal(Pushed(f), counter);
      BlockSkipsNothing(body, g, g.reserved, g.reserved)
    case Break => f.cache != [] && Innermost(f).reserved == atBreak
    case Continue => f.cache != [] && Innermost(f).reserved == atContinue
    case _ => true
  }

  predicate BlockSkipsNothing(ss: seq<H.Stmt>, f: Frame, atBreak: int, atContinue: int)
    decreases ss, 1
  {
    AllSkipNothing(ss, Pushed(f), atBreak, atContinue)
  }

  predicate AllSkipNothing(ss: seq<H.Stmt>, f: Frame, atBreak: int, atContinue: int)
    decreases ss, 0
  {
    ss == [] || (SkipsNothing(ss[0], f, atBreak, atContinue) && AllSkipNothing(ss[1..], AfterStmt(ss[0], f), atBreak,
                                                                               atContinue))
  }

  /** Blocks give back what they took. */
  lemma {:induction false} BlockRestores(ss: seq<H.Stmt>, f: Frame)
    ensures var g := AfterBlock(ss, f); g.reserved == f.reserved && g.used == f.used && g.cache == f.cache
    decreases ss, 2
  {
    hide AfterAll;
    AllKeepsCache(ss, Pushed(f));
  }

  lemma {:induction false} AllKeepsCache(ss: seq<H.Stmt>, f: Frame)
    ensures AfterAll(ss, f).cache == f.cache
    decreases ss, 1
  {
    hide AfterStmt;
    if ss != [] {
      StmtKeepsCache(ss[0], f);
      AllKeepsCache(ss[1..], AfterStmt(ss[0], f));
    }
  }

  lemma {:induction false} StmtKeepsCache(s: H.Stmt, f: Frame)
    ensures AfterStmt(s, f).cache == f.cache
    decreases s, 1
  {
    hide AfterBlock, RoundUp;
    match s
    case Block(body) => BlockRestores(body, f);
    case If(_, body, otherwise) =>
      BlockRestores(body, f);
      BlockRestores(otherwise, AfterBlock(body, f));
    case While(_, body, _) => BlockRestores(body, f);
    case For(counter, _, _, _, _, body) => BlockRestores(body, AfterLocal(Pushed(f), counter));
    case _ =>
  }

  // ----- Lowered statements -----

  /** The view where the tracker is right. */
  function At(f: Frame): View {
    View(f, f.reserved)
  }

  lemma AtLevel(f: Frame)
    ensures Level(At(f)) && At(f).frame == f
  {
  }

  lemma Adjust(v: View, code: seq<Instr>, h: nat -> int, v': View, ok: bool, need: bool, ok': bool, need': bool)
    requires Segment(v, code, h, v', ok, need)
    requires LabelsFit(v, code, h) ==> (ok' ==> ok) && (need ==> need')
    ensures Segment(v, code, h, v', ok', need')
  {
  }

  lemma StoreLocalSegment(f: Frame, uid: nat, src: Operand, h: nat -> int)
    requires !src.Argument?
    ensures Segment(At(f), [Store(Local(uid), src)], h, At(AfterLocal(f, uid)), true, true)
  {
    One(At(f), Store(Local(uid), src), h);
  }

  lemma StartSegment(f: Frame, h: nat -> int)
    ensures Segment(At(f), [StartBlock()], h, At(Pushed(f)), true, true)
  {
    One(At(f), StartBlock(), h);
  }

  lemma EndSegment(f: Frame, i: Instr, h: nat -> int)
    requires i.op.END_BLOCK? && i.src != EndBlockData(true) && f.cache != []
    ensures Segment(At(f), [i], h, At(AfterEnd(f)), true, true)
  {
    One(At(f), i, h);
  }

  /** The jump out of a block leaves from the height at which the block was opened. */
  lemma SkipSegment(f: Frame, target: nat, h: nat -> int)
    requires f.cache != []
    ensures var fits := Innermost(f).reserved == h(target);
      Segment(At(f), [EndBlock(true), Jump(target)], h, At(f.(used := f.reserved)), fits, fits)
  {
    var v1 := View(f.(used := f.reserved), Innermost(f).reserved);
    var fits := Innermost(f).reserved == h(target);
    One(At(f), EndBlock(true), h);
    One(v1, Jump(target), h);
    Sequel(At(f), [EndBlock(true)], v1, true, true, [Jump(target)], At(f.(used := f.reserved)), fits, fits, h);
    assert [EndBlock(true)] + [Jump(target)] == [EndBlock(true), Jump(target)];
  }

  lemma FlatBefore(f: Frame, a: seq<Instr>, b: seq<Instr>, v: View, ok: bool, need: bool, h: nat -> int)
    requires Flat(At(f), a, h, At(f)) && Segment(At(f), b, h, v, ok, need)
    ensures Segment(At(f), a + b, h, v, ok, need)
  {
    hide Segment;
    Sequel(At(f), a, At(f), true, true, b, v, ok, need, h);
  }

  lemma StoredSegment(e: H.Expr, uid: nat, n: nat, f: Frame, h: nat -> int)
    ensures Segment(At(f), LowerStored(e, uid, n).code, h, At(AfterLocal(f, uid)), true, true)
  {
    var x := LowerExpr(e, n);
    AtLevel(f);
    ExprFlat(e, n, At(f), h);
    SteadyStep(At(f), Load(T1, x.operand), h);
    StoreLocalSegment(f, uid, T1, h);
    hide Segment, LowerExpr, AfterLocal;
    var store := Store(Local(uid), T1);
    FlatBefore(f, [Load(T1, x.operand)], [store], At(AfterLocal(f, uid)), true, true, h);
    assert [Load(T1, x.operand)] + [store] == [Load(T1, x.operand), store];
    FlatBefore(f, x.code, [Load(T1, x.operand), store], At(AfterLocal(f, uid)), true, true, h);
  }

  lemma InitializerFlat(e: Option<H.Expr>, n: nat, f: Frame, h: nat -> int)
    ensures Flat(At(f), LowerInitializer(e, n).code, h, At(f))
  {
    hide LowerExpr;
    AtLevel(f);
    if e.None? {
      NoCode(At(f), h);
    } else {
      ExprFlat(e.value, n, At(f), h);
    }
  }

  /** A condition and the jump on it. */
  lemma TestSegment(e: H.Expr, n: nat, jump: Instr, id: nat, f: Frame, h: nat -> int)
    requires (jump.op.JMP_TRUE? || jump.op.JMP_FALSE?) && jump.dst == Label(id)
    ensures var x := LowerExpr(e, n);
      Segment(At(f), x.code + [Load(T1, x.operand), jump], h, At(f), h(id) == f.reserved, true)
  {
    var x := LowerExpr(e, n);
    AtLevel(f);
    ExprFlat(e, n, At(f), h);
    SteadyStep(At(f), Load(T1, x.operand), h);
    TestStep(At(f), jump, id, h);
    hide Segment, LowerExpr;
    FlatBefore(f, [Load(T1, x.operand)], [jump], At(f), h(id) == f.reserved, true, h);
    assert [Load(T1, x.operand)] + [jump] == [Load(T1, x.operand), jump];
    FlatBefore(f, x.code, [Load(T1, x.operand), jump], At(f), h(id) == f.reserved, true, h);
  }

  /** Breaks and continues are inside blocks. */
  lemma {:induction false} StmtSegment(s: H.Stmt, inLoop: bool, n: nat, b: nat, c: nat, f: Frame, h: nat -> int)
    requires H.StmtOk(s, inLoop) && (inLoop ==> f.cache != [])
    ensures var fits := SkipsNothing(s, f, h(b), h(c));
      Segment(At(f), LowerStmt(s, n, b, c).code, h, At(AfterStmt(s, f)), fits, fits)
    decreases s, 1
  {
    hide Segment, LowerExpr, LowerBlock, LowerInitializer, LowerStored, AfterLocal, AfterBlock, BlockSkipsNothing,
        H.ExprOk;
    match s
    case Skip => NoCode(At(f), h);
    case Block(body) => BlockSegment(body, inLoop, n, b, c, f, h);
    case Declare(uid, initial) =>
      if initial.None? {
        StoreLocalSegment(f, uid, Nothing, h);
      } else {
        StoredSegment(initial.value, uid, n, f, h);
      }
    case Assign(uid, value) => StoredSegment(value, uid, n, f, h);
    case CallStmt(callee, arguments) =>
      AtLevel(f);
      ExprFlat(H.Call(callee, arguments), n, At(f), h);
    case If(_, _, _) => IfSegment(s, inLoop, n, b, c, f, h);
    case While(_, _, _) => WhileSegment(s, n, b, c, f, h);
    case For(_, _, _, _, _, _) => ForSegment(s, n, b, c, f, h);
    case Break => SkipSegment(f, b, h);
    case Continue => SkipSegment(f, c, h);
    case Return(result) =>
      var x := LowerInitializer(result, n);
      AtLevel(f);
      InitializerFlat(result, n, f, h);
      SteadyStep(At(f), Instr(RETURN, Nothing, x.operand), h);
      FlatBefore(f, x.code, [Instr(RETURN, Nothing, x.operand)], At(f), true, true, h);
  }

  lemma {:induction false} AllSegment(ss: seq<H.Stmt>, inLoop: bool, n: nat, b: nat, c: nat, f: Frame, h: nat -> int)
    requires H.StmtsOk(ss, inLoop) && (inLoop ==> f.cache != [])
    ensures var fits := AllSkipNothing(ss, f, h(b), h(c));
      Segment(At(f), LowerAll(ss, n, b, c).code, h, At(AfterAll(ss, f)), fits, fits)
    decreases ss, 2
  {
    hide Segment, LowerStmt, AfterStmt, SkipsNothing, H.StmtOk;
    if ss == [] {
      NoCode(At(f), h);
    } else {
      var s := LowerStmt(ss[0], n, b, c);
      var f1 := AfterStmt(ss[0], f);
      StmtSegment(ss[0], inLoop, n, b, c, f, h);
      StmtKeepsCache(ss[0], f);
      AllSegment(ss[1..], inLoop, s.next, b, c, f1, h);
      var first := SkipsNothing(ss[0], f, h(b), h(c));
      var rest := AllSkipNothing(ss[1..], f1, h(b), h(c));
      Sequel(At(f), s.code, At(f1), first, first, LowerAll(ss[1..], s.next, b, c).code, At(AfterAll(ss[1..], f1)),
             rest, rest, h);
    }
  }

  lemma {:induction false} BlockSegment(ss: seq<H.Stmt>, inLoop: bool, n: nat, b: nat, c: nat, f: Frame, h: nat -> int)
    requires H.StmtsOk(ss, inLoop)
    ensures var fits := BlockSkipsNothing(ss, f, h(b), h(c));
      Segment(At(f), LowerBlock(ss, n, b, c).code, h, At(AfterBlock(ss, f)), fits, fits)
    decreases ss, 3
  {
    hide Segment, LowerAll, AfterAll, AllSkipNothing, H.StmtsOk, AfterEnd;
    var all := LowerAll(ss, n, b, c);
    var g := Pushed(f);
    var fits := AllSkipNothing(ss, g, h(b), h(c));
    StartSegment(f, h);
    AllSegment(ss, inLoop, n, b, c, g, h);
    AllKeepsCache(ss, g);
    EndSegment(AfterAll(ss, g), EndBlock(false), h);
    Sequel(At(f), [StartBlock()], At(g), true, true, all.code, At(AfterAll(ss, g)), fits, fits, h);
    Sequel(At(f), [StartBlock()] + all.code, At(AfterAll(ss, g)), fits, fits, [EndBlock(false)], At(AfterBlock(ss,
        f)), true, true, h);
  }

  lemma AtSame(f: Frame, g: Frame)
    requires g.reserved == f.reserved
    ensures At(g).frame.reserved == f.reserved && Level(At(g))
  {
  }

  lemma {:induction false} IfSegment(s: H.Stmt, inLoop: bool, n: nat, b: nat, c: nat, f: Frame, h: nat -> int)
    requires s.If? && H.StmtOk(s, inLoop)
    ensures var fits := SkipsNothing(s, f, h(b), h(c));
      Segment(At(f), LowerStmt(s, n, b, c).code, h, At(AfterStmt(s, f)), fits, fits)
    decreases s, 0
  {
    hide Segment, LowerExpr, LowerBlock, AfterBlock, BlockSkipsNothing, H.ExprOk, LabelsFit;
    var x := LowerExpr(s.condition, if s.otherwise == [] then n + 1 else n + 2);
    var test := x.code + [Load(T1, x.operand), JumpFalse(n)];
    var y := LowerBlock(s.body, x.next, b, c);
    var g := AfterBlock(s.body, f);
    var first := BlockSkipsNothing(s.body, f, h(b), h(c));
    var here := h(n) == f.reserved;
    TestSegment(s.condition, if s.otherwise == [] then n + 1 else n + 2, JumpFalse(n), n, f, h);
    BlockSegment(s.body, inLoop, x.next, b, c, f, h);
    BlockRestores(s.body, f);
    AtSame(f, g);
    Sequel(At(f), test, At(f), here, true, y.code, At(g), first, first, h);
    if s.otherwise == [] {
      LabelStep(At(g), n, h);
      Sequel(At(f), test + y.code, At(g), here && first, first, [NewLabel(n)], At(g), true, true, h);
      Adjust(At(f), test + y.code + [NewLabel(n)], h, At(g), here && first, first, first, first);
    } else {
      var z := LowerBlock(s.otherwise, y.next, b, c);
      var k := AfterBlock(s.otherwise, g);
      var second := BlockSkipsNothing(s.otherwise, g, h(b), h(c));
      ElseSegment(s.otherwise, inLoop, y.next, b, c, n, g, h);
      var rest := [Jump(n + 1), NewLabel(n)] + z.code + [NewLabel(n + 1)];
      Sequel(At(f), test + y.code, At(g), here && first, first, rest, At(k), second, second, h);
      Adjust(At(f), test + y.code + rest, h, At(k), here && first && second, first && second, first && second,
             first && second);
      assert test + y.code + rest == test + y.code + [Jump(n + 1), NewLabel(n)] + z.code + [NewLabel(n + 1)];
    }
  }

  lemma {:induction false} ElseSegment(ss: seq<H.Stmt>, inLoop: bool, next: nat, b: nat, c: nat, n: nat, g: Frame,
                                       h: nat -> int)
    requires H.StmtsOk(ss, inLoop)
    ensures var fits := BlockSkipsNothing(ss, g, h(b), h(c));
      var code := [Jump(n + 1), NewLabel(n)] + LowerBlock(ss, next, b, c).code + [NewLabel(n + 1)];
      && Segment(At(g), code, h, At(AfterBlock(ss, g)), fits, fits)
      && (LabelsFit(At(g), code, h) ==> h(n) == g.reserved)
    decreases ss, 4
  {
    hide Segment, LowerBlock, AfterBlock, BlockSkipsNothing, LabelsFit, H.StmtsOk;
    var z := LowerBlock(ss, next, b, c);
    var k := AfterBlock(ss, g);
    var fits := BlockSkipsNothing(ss, g, h(b), h(c));
    var there := h(n + 1) == g.reserved;
    BlockRestores(ss, g);
    AtSame(g, g);
    AtSame(g, k);
    JumpStep(At(g), Jump(n + 1), n + 1, h);
    LabelStep(At(g), n, h);
    BlockSegment(ss, inLoop, next, b, c, g, h);
    LabelStep(At(k), n + 1, h);
    Sequel(At(g), [Jump(n + 1)], At(g), there, true, [NewLabel(n)], At(g), true, true, h);
    assert [Jump(n + 1)] + [NewLabel(n)] == [Jump(n + 1), NewLabel(n)];
    Sequel(At(g), [Jump(n + 1), NewLabel(n)], At(g), there, true, z.code, At(k), fits, fits, h);
    Sequel(At(g), [Jump(n + 1), NewLabel(n)] + z.code, At(k), there && fits, fits, [NewLabel(n + 1)], At(k), true,
           true, h);
    Adjust(At(g), [Jump(n + 1), NewLabel(n)] + z.code + [NewLabel(n + 1)], h, At(k), there && fits, fits, fits, fits);
  }

  lemma {:induction false} WhileSegment(s: H.Stmt, n: nat, b: nat, c: nat, f: Frame, h: nat -> int)
    requires s.While? && H.StmtOk(s, true)
    ensures var fits := SkipsNothing(s, f, h(b), h(c));
      Segment(At(f), LowerStmt(s, n, b, c).code, h, At(AfterStmt(s, f)), fits, fits)
    decreases s, 0
  {
    hide Segment, LowerExpr, LowerBlock, AfterBlock, BlockSkipsNothing, H.ExprOk, LabelsFit;
    var g := AfterBlock(s.body, f);
    BlockRestores(s.body, f);
    AtSame(f, f);
    AtSame(f, g);
    if s.doFirst {
      DoSegment(s, n, f, h);
    } else {
      var x := LowerExpr(s.condition, n + 3);
      var y := LowerBlock(s.body, x.next, n + 2, n);
      var test := x.code + [Load(T1, x.operand), JumpFalse(n + 2)];
      var back := Instr(JMP, Label(n), T1);
      var inside := BlockSkipsNothing(s.body, f, h(n + 2), h(n));
      var out, again := h(n + 2) == f.reserved, h(n) == f.reserved;
      LabelStep(At(f), n, h);
      TestSegment(s.condition, n + 3, JumpFalse(n + 2), n + 2, f, h);
      LabelStep(At(f), n + 1, h);
      BlockSegment(s.body, true, x.next, n + 2, n, f, h);
      JumpStep(At(g), back, n, h);
      LabelStep(At(g), n + 2, h);
      Sequel(At(f), [NewLabel(n)], At(f), true, true, test, At(f), out, true, h);
      Sequel(At(f), [NewLabel(n)] + test, At(f), out, true, [NewLabel(n + 1)], At(f), true, true, h);
      Sequel(At(f), [NewLabel(n)] + test + [NewLabel(n + 1)], At(f), out, true, y.code, At(g), inside, inside, h);
      Sequel(At(f), [NewLabel(n)] + test + [NewLabel(n + 1)] + y.code, At(g), out && inside, inside, [back], At(g),
             again, true, h);
      var most := [NewLabel(n)] + test + [NewLabel(n + 1)] + y.code + [back];
      Sequel(At(f), most, At(g), out && inside && again, inside, [NewLabel(n + 2)], At(g), true, true, h);
      var fits := BlockSkipsNothing(s.body, f, f.reserved, f.reserved);
      Adjust(At(f), most + [NewLabel(n + 2)], h, At(g), out && inside && again, inside, fits, fits);
      WhileShape(n, x.code, x.operand, y.code);
    }
  }

  lemma WhileShape(n: nat, x: seq<Instr>, o: Operand, y: seq<Instr>)
    ensures [NewLabel(n)] + (x + [Load(T1, o), JumpFalse(n + 2)]) + [NewLabel(n + 1)] + y + [Instr(JMP, Label(n), T1)]
            + [NewLabel(n + 2)]
      == [NewLabel(n)] + x + [Load(T1, o), JumpFalse(n + 2), NewLabel(n + 1)] + y + [Instr(JMP, Label(n), T1),
          NewLabel(n + 2)]
  {
  }

  lemma DoShape(n: nat, x: seq<Instr>, o: Operand, y: seq<Instr>)
    ensures [NewLabel(n + 1)] + y + [NewLabel(n)] + (x + [Load(T1, o), JumpTrue(n + 1)]) + [NewLabel(n + 2)]
      == [NewLabel(n + 1)] + y + [NewLabel(n)] + x + [Load(T1, o), JumpTrue(n + 1), NewLabel(n + 2)]
  {
  }

  lemma {:induction false} DoSegment(s: H.Stmt, n: nat, f: Frame, h: nat -> int)
    requires s.While? && s.doFirst && H.StmtOk(s, true)
    ensures var fits := BlockSkipsNothing(s.body, f, f.reserved, f.reserved);
      Segment(At(f), LowerStmt(s, n, 0, 0).code, h, At(AfterBlock(s.body, f)), fits, fits)
    ensures forall b, c :: LowerStmt(s, n, b, c) == LowerStmt(s, n, 0, 0)
    decreases s.body, 4
  {
    hide Segment, LowerExpr, LowerBlock, AfterBlock, BlockSkipsNothing, H.ExprOk, LabelsFit;
    var g := AfterBlock(s.body, f);
    var y := LowerBlock(s.body, n + 3, n + 2, n);
    var x := LowerExpr(s.condition, y.next);
    var test := x.code + [Load(T1, x.operand), JumpTrue(n + 1)];
    var inside := BlockSkipsNothing(s.body, f, h(n + 2), h(n));
    var again := h(n + 1) == g.reserved;
    BlockRestores(s.body, f);
    AtSame(f, f);
    AtSame(f, g);
    LabelStep(At(f), n + 1, h);
    BlockSegment(s.body, true, n + 3, n + 2, n, f, h);
    LabelStep(At(g), n, h);
    TestSegment(s.condition, y.next, JumpTrue(n + 1), n + 1, g, h);
    LabelStep(At(g), n + 2, h);
    Sequel(At(f), [NewLabel(n + 1)], At(f), true, true, y.code, At(g), inside, inside, h);
    Sequel(At(f), [NewLabel(n + 1)] + y.code, At(g), inside, inside, [NewLabel(n)], At(g), true, true, h);
    Sequel(At(f), [NewLabel(n + 1)] + y.code + [NewLabel(n)], At(g), inside, inside, test, At(g), again, true, h);
    var most := [NewLabel(n + 1)] + y.code + [NewLabel(n)] + test;
    Sequel(At(f), most, At(g), inside && again, inside, [NewLabel(n + 2)], At(g), true, true, h);
    var fits := BlockSkipsNothing(s.body, f, f.reserved, f.reserved);
    Adjust(At(f), most + [NewLabel(n + 2)], h, At(g), inside && again, inside, fits, fits);
    DoShape(n, x.code, x.operand, y.code);
  }

  // ----- For -----

  lemma StartForSegment(counter: nat, e: Option<H.Expr>, n: nat, m: nat, f: Frame, h: nat -> int)
    ensures var i := LowerInitializer(e, m);
      var code := [StartBlock()] + i.code + [Load(T1, i.operand), Store(Local(counter), T1), NewLabel(n)];
      var g := AfterLocal(Pushed(f), counter);
      && Segment(At(f), code, h, At(g), true, true)
      && (LabelsFit(At(f), code, h) ==> h(n) == g.reserved)
  {
    var i := LowerInitializer(e, m);
    var p := Pushed(f);
    var g := AfterLocal(p, counter);
    var load, store := Load(T1, i.operand), Store(Local(counter), T1);
    StartSegment(f, h);
    InitializerFlat(e, m, p, h);
    AtLevel(p);
    AtLevel(g);
    SteadyStep(At(p), load, h);
    StoreLocalSegment(p, counter, T1, h);
    LabelStep(At(g), n, h);
    hide Segment, LowerInitializer, AfterLocal, LabelsFit;
    Sequel(At(f), [StartBlock()], At(p), true, true, i.code, At(p), true, true, h);
    Sequel(At(p), [store], At(g), true, true, [NewLabel(n)], At(g), true, true, h);
    Sequel(At(p), [load], At(p), true, true, [store] + [NewLabel(n)], At(g), true, true, h);
    assert [load] + ([store] + [NewLabel(n)]) == [load, store, NewLabel(n)];
    Sequel(At(f), [StartBlock()] + i.code, At(p), true, true, [load, store, NewLabel(n)], At(g), true, true, h);
  }

  /** The step of a `for`: the counter already has its place. */
  lemma AdvanceSegment(counter: nat, increment: H.Expr, decrement: bool, n: nat, m: nat, g: Frame, h: nat -> int)
    requires counter in g.offsets
    ensures var code := [NewLabel(n + 1), Load(T1, Local(counter)), Push(T1)] + LowerPushed(increment, m).code
                        + AdvanceTail(counter, decrement, n);
      && Segment(At(g), code, h, At(g), h(n) == g.reserved, true)
      && (LabelsFit(At(g), code, h) ==> h(n + 1) == g.reserved)
  {
    var v := At(g);
    var load, op := Load(T1, Local(counter)), Instr(if decrement then SUB else ADD, T1, T2);
    var store, back := Store(Local(counter), T1), Jump(n);
    var there := h(n) == g.reserved;
    AtLevel(g);
    UpMore(v, 1, 1);
    LabelStep(v, n + 1, h);
    SteadyStep(v, load, h);
    PushStep(v, Push(T1), h);
    PushedFlat(increment, m, Up(v, 1), h);
    PopPopFlat(v, op, h);
    StoreLocalSegment(g, counter, T1, h);
    JumpStep(v, back, n, h);
    hide Segment, LowerPushed, LabelsFit, Up, Level, At;
    FlatPair(v, load, v, Push(T1), Up(v, 1), h);
    Sequel(v, [NewLabel(n + 1)], v, true, true, [load, Push(T1)], Up(v, 1), true, true, h);
    assert [NewLabel(n + 1)] + [load, Push(T1)] == [NewLabel(n + 1), load, Push(T1)];
    var head := [NewLabel(n + 1), load, Push(T1)];
    Sequel(v, head, Up(v, 1), true, true, LowerPushed(increment, m).code, Up(v, 2), true, true, h);
    Sequel(v, [store], v, true, true, [back], v, there, true, h);
    Sequel(Up(v, 2), [Pop(T2), Pop(T1), op], v, true, true, [store] + [back], v, there, true, h);
    assert [Pop(T2), Pop(T1), op] + ([store] + [back]) == AdvanceTail(counter, decrement, n);
    Sequel(v, head + LowerPushed(increment, m).code, Up(v, 2), true, true, AdvanceTail(counter, decrement, n), v,
           there, true, h);
  }

  lemma KnownStays(ss: seq<H.Stmt>, f: Frame, uid: nat)
    requires uid in f.offsets
    ensures uid in AfterBlock(ss, f).offsets
  {
    KnownStaysAll(ss, Pushed(f), uid);
  }

  lemma {:induction false} KnownStaysAll(ss: seq<H.Stmt>, f: Frame, uid: nat)
    requires uid in f.offsets
    ensures uid in AfterAll(ss, f).offsets
    decreases ss, 4
  {
    hide AfterStmt;
    if ss != [] {
      KnownStaysStmt(ss[0], f, uid);
      KnownStaysAll(ss[1..], AfterStmt(ss[0], f), uid);
    }
  }

  lemma {:induction false} KnownStaysStmt(s: H.Stmt, f: Frame, uid: nat)
    requires uid in f.offsets
    ensures uid in AfterStmt(s, f).offsets
    decreases s, 0
  {
    hide AfterAll, RoundUp;
    match s
    case Block(body) => KnownStaysAll(body, Pushed(f), uid);
    case If(_, body, otherwise) =>
      KnownStaysAll(body, Pushed(f), uid);
      KnownStaysAll(otherwise, Pushed(AfterBlock(body, f)), uid);
    case While(_, body, _) => KnownStaysAll(body, Pushed(f), uid);
    case For(counter, _, _, _, _, body) => KnownStaysAll(body, Pushed(AfterLocal(Pushed(f), counter)), uid);
    case _ =>
  }

  lemma {:induction false} ForSegment(s: H.Stmt, n: nat, b: nat, c: nat, f: Frame, h: nat -> int)
    requires s.For? && H.StmtOk(s, true)
    ensures var fits := SkipsNothing(s, f, h(b), h(c));
      Segment(At(f), LowerStmt(s, n, b, c).code, h, At(AfterStmt(s, f)), fits, fits)
    decreases s, 0
  {
    hide Segment, LowerExpr, LowerBlock, LowerInitializer, LowerPushed, AfterBlock, AfterLocal, BlockSkipsNothing,
      H.ExprOk, LabelsFit, AdvanceTail;
    var g := AfterLocal(Pushed(f), s.counter);
    var k := AfterBlock(s.body, g);
    var i := LowerInitializer(s.initializer, n + 3);
    var x := LowerExpr(s.condition, i.next);
    var y := LowerBlock(s.body, x.next, n + 2, n + 1);
    var step := LowerPushed(s.increment, y.next);
    var start := [StartBlock()] + i.code + [Load(T1, i.operand), Store(Local(s.counter), T1), NewLabel(n)];
    var test := x.code + [Load(T1, x.operand), JumpFalse(n + 2)];
    var turn := [NewLabel(n + 1), Load(T1, Local(s.counter)), Push(T1)] + step.code + AdvanceTail(s.counter,
        s.decrement, n);
    var end := Instr(END_BLOCK, Nothing, Nothing);
    var inside := BlockSkipsNothing(s.body, g, h(n + 2), h(n + 1));
    var out, again := h(n + 2) == g.reserved, h(n) == k.reserved;
    CounterKnown(Pushed(f), s.counter);
    KnownStays(s.body, g, s.counter);
    BlockRestores(s.body, g);
    AtSame(g, k);
    StartForSegment(s.counter, s.initializer, n, n + 3, f, h);
    TestSegment(s.condition, i.next, JumpFalse(n + 2), n + 2, g, h);
    BlockSegment(s.body, true, x.next, n + 2, n + 1, g, h);
    AdvanceSegment(s.counter, s.increment, s.decrement, n, y.next, k, h);
    LabelStep(At(k), n + 2, h);
    EndSegment(k, end, h);
    Sequel(At(f), start, At(g), true, true, test, At(g), out, true, h);
    Sequel(At(f), start + test, At(g), out, true, y.code, At(k), inside, inside, h);
    Sequel(At(f), start + test + y.code, At(k), out && inside, inside, turn, At(k), again, true, h);
    var most := start + test + y.code + turn;
    Sequel(At(f), most, At(k), out && inside && again, inside, [NewLabel(n + 2)], At(k), true, true, h);
    Sequel(At(f), most + [NewLabel(n + 2)], At(k), out && inside && again, inside, [end], At(AfterEnd(k)), true, true,
           h);
    var fits := BlockSkipsNothing(s.body, g, g.reserved, g.reserved);
    Adjust(At(f), most + [NewLabel(n + 2)] + [end], h, At(AfterEnd(k)), out && inside && again, inside, fits, fits);
    ForShape(n, i.code, i.operand, s.counter, x.code, x.operand, y.code, step.code, AdvanceTail(s.counter,
        s.decrement, n));
  }

  lemma CounterKnown(p: Frame, counter: nat)
    ensures counter in AfterLocal(p, counter).offsets && AfterLocal(p, counter).cache == p.cache
  {
    hide RoundUp;
  }

  lemma ForShape(n: nat, i: seq<Instr>, o: Operand, counter: nat, x: seq<Instr>, p: Operand, y: seq<Instr>,
                 step: seq<Instr>,
                 tail: seq<Instr>)
    ensures var end := Instr(END_BLOCK, Nothing, Nothing);
      [StartBlock()] + i + [Load(T1, o), Store(Local(counter), T1), NewLabel(n)] + (x + [Load(T1, p),
          JumpFalse(n + 2)]) + y
      + ([NewLabel(n + 1), Load(T1, Local(counter)), Push(T1)] + step + tail) + [NewLabel(n + 2)] + [end]
      == [StartBlock()] + i + [Load(T1, o), Store(Local(counter), T1), NewLabel(n)] + x + [Load(T1, p),
          JumpFalse(n + 2)] + y
         + [NewLabel(n + 1), Load(T1, Local(counter)), Push(T1)] + step + tail + [NewLabel(n + 2), end]
  {
    var end := Instr(END_BLOCK, Nothing, Nothing);
    var a := [StartBlock()] + i + [Load(T1, o), Store(Local(counter), T1), NewLabel(n)];
    var t := [Load(T1, p), JumpFalse(n + 2)];
    var u := [NewLabel(n + 1), Load(T1, Local(counter)), Push(T1)];
    assert a + (x + t) == a + x + t;
    ForTail(a + x + t + y, u, step, tail, NewLabel(n + 2), end);
  }

  lemma ForTail(a: seq<Instr>, u: seq<Instr>, step: seq<Instr>, tail: seq<Instr>, i: Instr, j: Instr)
    ensures a + (u + step + tail) + [i] + [j] == a + u + step + tail + [i, j]
  {
    assert a + (u + step + tail) == a + u + step + tail;
  }

  // ----- Functions -----

  /** The frame once every parameter has its place: stack parameters keep the caller's. */
  function AfterParameters(uids: seq<nat>, total: nat): Frame {
    if uids == [] then EMPTY
    else
      var i := |uids| - 1;
      AfterStore(AfterParameters(uids[..i], total), Local(uids[i]), Argument(i, total, i, false))
  }

  lemma {:induction false} ParametersSegment(uids: seq<nat>, total: nat, h: nat -> int)
    ensures Segment(At(EMPTY), LowerParameters(uids, total), h, At(AfterParameters(uids, total)), true, true)
    decreases |uids|
  {
    hide Segment, RoundUp, AfterStore;
    if uids == [] {
      NoCode(At(EMPTY), h);
    } else {
      var i := |uids| - 1;
      var store := Store(Local(uids[i]), Argument(i, total, i, false));
      ParametersSegment(uids[..i], total, h);
      var f := AfterParameters(uids[..i], total);
      ParameterStep(f, uids[i], i, total, h);
      Sequel(At(EMPTY), LowerParameters(uids[..i], total), At(f), true, true, [store], At(AfterParameters(uids,
          total)), true, true, h);
    }
  }

  lemma ParameterStep(f: Frame, uid: nat, i: nat, total: nat, h: nat -> int)
    ensures var o := Argument(i, total, i, false);
      Segment(At(f), [Store(Local(uid), o)], h, At(AfterStore(f, Local(uid), o)), true, true)
  {
    One(At(f), Store(Local(uid), Argument(i, total, i, false)), h);
  }

  /** Outside loops the heights at which break and continue arrive do not matter. */
  lemma {:induction false} OutsideLoops(s: H.Stmt, f: Frame, x: int, y: int)
    requires H.StmtOk(s, false)
    ensures SkipsNothing(s, f, x, y) == SkipsNothing(s, f, 0, 0)
    decreases s, 0
  {
    hide H.ExprOk, AfterBlock;
    match s
    case Block(body) => OutsideLoopsAll(body, Pushed(f), x, y);
    case If(_, body, otherwise) =>
      OutsideLoopsAll(body, Pushed(f), x, y);
      OutsideLoopsAll(otherwise, Pushed(AfterBlock(body, f)), x, y);
    case _ =>
  }

  lemma {:induction false} OutsideLoopsAll(ss: seq<H.Stmt>, f: Frame, x: int, y: int)
    requires H.StmtsOk(ss, false)
    ensures AllSkipNothing(ss, f, x, y) == AllSkipNothing(ss, f, 0, 0)
    decreases ss, 1
  {
    hide H.StmtOk, AfterStmt, SkipsNothing;
    if ss != [] {
      OutsideLoops(ss[0], f, x, y);
      OutsideLoopsAll(ss[1..], AfterStmt(ss[0], f), x, y);
    }
  }

  /** Does the stack height agree with the tracker along the whole program, for some heights of its labels? */
  ghost predicate Agrees(prog: seq<Instr>) {
    exists h: nat -> int :: Fits(At(EMPTY), prog, h)
  }

  predicate FunctionSkipsNothing(parameters: seq<nat>, body: seq<H.Stmt>) {
    AllSkipNothing(body, AfterParameters(parameters, |parameters|), 0, 0)
  }

  lemma FunctionSegment(name: nat, parameters: seq<nat>, body: seq<H.Stmt>, h: nat -> int)
    requires H.StmtsOk(body, false)
    ensures var prog := LowerFunction(name, parameters, body);
      LabelsFit(At(EMPTY), prog, h) ==> (Fits(At(EMPTY), prog, h) <==> FunctionSkipsNothing(parameters, body))
  {
    var start, finish := Instr(START_FUNC, Nothing, Function(name)), Instr(END_FUNC, Nothing, Function(name));
    var f := AfterParameters(parameters, |parameters|);
    var g := AfterAll(body, f);
    AtLevel(EMPTY);
    AtLevel(g);
    SteadyStep(At(EMPTY), start, h);
    SteadyStep(At(g), finish, h);
    FunctionParts(name, parameters, body, h);
  }

  lemma FunctionParts(name: nat, parameters: seq<nat>, body: seq<H.Stmt>, h: nat -> int)
    requires H.StmtsOk(body, false)
    requires var g := AfterAll(body, AfterParameters(parameters, |parameters|));
      && Segment(At(EMPTY), [Instr(START_FUNC, Nothing, Function(name))], h, At(EMPTY), true, true)
      && Segment(At(g), [Instr(END_FUNC, Nothing, Function(name))], h, At(g), true, true)
    ensures var prog := LowerFunction(name, parameters, body);
      LabelsFit(At(EMPTY), prog, h) ==> (Fits(At(EMPTY), prog, h) <==> FunctionSkipsNothing(parameters, body))
  {
    hide Segment, LowerAll, LowerParameters, AfterAll, AfterParameters, AllSkipNothing, H.StmtsOk, LabelsFit, Fits;
    var start, finish := Instr(START_FUNC, Nothing, Function(name)), Instr(END_FUNC, Nothing, Function(name));
    var store := LowerParameters(parameters, |parameters|);
    var f := AfterParameters(parameters, |parameters|);
    var g := AfterAll(body, f);
    var code := LowerAll(body, 0, 0, 0).code;
    var fits := AllSkipNothing(body, f, 0, 0);
    ParametersSegment(parameters, |parameters|, h);
    AllSegment(body, false, 0, 0, 0, f, h);
    OutsideLoopsAll(body, f, h(0), h(0));
    Sequel(At(EMPTY), [start], At(EMPTY), true, true, store, At(f), true, true, h);
    Sequel(At(EMPTY), [start] + store, At(f), true, true, code, At(g), fits, fits, h);
    Sequel(At(EMPTY), [start] + store + code, At(g), fits, fits, [finish], At(g), true, true, h);
    SegmentMeans(At(EMPTY), LowerFunction(name, parameters, body), h, At(g), fits);
  }

  lemma SegmentMeans(v: View, code: seq<Instr>, h: nat -> int, v': View, fits: bool)
    requires Segment(v, code, h, v', fits, fits)
    ensures LabelsFit(v, code, h) ==> (Fits(v, code, h) <==> fits)
  {
  }

  // ----- The heights of labels -----

  /** What is reserved where a label is defined. */
  function HeightOf(prog: seq<Instr>): nat -> int {
    (id: nat) => if Find(prog, id) < |prog| then ViewAll(At(EMPTY), prog[..Find(prog, id)]).frame.reserved else 0
  }

  lemma ViewNext(prog: seq<Instr>, k: nat)
    requires k < |prog|
    ensures ViewAll(At(EMPTY), prog[..k + 1]) == ViewAfter(ViewAll(At(EMPTY), prog[..k]), prog[k])
  {
    hide ViewAfter;
    assert prog[..k + 1] == prog[..k] + [prog[k]];
    Concatenated(At(EMPTY), prog[..k], [prog[k]], id => 0);
    One(ViewAll(At(EMPTY), prog[..k]), prog[k], id => 0);
  }

  lemma {:induction false} LabelsFitFrom(prog: seq<Instr>, k: nat)
    requires UniqueLabels(prog) && k <= |prog|
    ensures LabelsFit(ViewAll(At(EMPTY), prog[..k]), prog[k..], HeightOf(prog))
    decreases |prog| - k
  {
    hide UniqueLabels, ViewAfter, ViewAll;
    if k < |prog| {
      LabelsFitFrom(prog, k + 1);
      ViewNext(prog, k);
      assert prog[k..][0] == prog[k] && prog[k..][1..] == prog[k + 1..];
      if prog[k].op.NEW_LABEL? && prog[k].src.Label? {
        FindUnique(prog, k, prog[k].src.id);
      }
    }
  }

  lemma {:induction false} FitsHasLabels(v: View, code: seq<Instr>, h: nat -> int)
    requires Fits(v, code, h)
    ensures LabelsFit(v, code, h)
    decreases |code|
  {
    hide ViewAfter;
    if code != [] {
      FitsHasLabels(ViewAfter(v, code[0]), code[1..], h);
    }
  }

  /** The stack height of a lowered function agrees with the tracker, on every edge into every label,
      exactly when its breaks and continues skip no block that reserved stack. */
  lemma StackAgrees(name: nat, parameters: seq<nat>, body: seq<H.Stmt>)
    requires H.StmtsOk(body, false)
    ensures Agrees(LowerFunction(name, parameters, body)) <==> FunctionSkipsNothing(parameters, body)
  {
    hide LowerFunction, FunctionSkipsNothing, H.StmtsOk, Fits, LabelsFit, UniqueLabels;
    var prog := LowerFunction(name, parameters, body);
    FunctionSim.FunctionLabels(name, parameters, body);
    LabelsFitFrom(prog, 0);
    assert prog[0..] == prog;
    EmptyView(prog);
    FunctionSegment(name, parameters, body, HeightOf(prog));
    forall h: nat -> int | Fits(At(EMPTY), prog, h)
      ensures FunctionSkipsNothing(parameters, body)
    {
      FitsHasLabels(At(EMPTY), prog, h);
      FunctionSegment(name, parameters, body, h);
    }
  }

  lemma EmptyView(prog: seq<Instr>)
    ensures ViewAll(At(EMPTY), prog[..0]) == At(EMPTY)
  {
  }

  // ----- Runs -----

  /** The tracker's view before the instruction at a position. */
  function Before(prog: seq<Instr>, pc: nat): View
    requires pc <= |prog|
  {
    ViewAll(At(EMPTY), prog[..pc])
  }

  /** How far rsp is below rbp after a step from a distance d. */
  function DepthAfter(prog: seq<Instr>, m: Machine, d: int): int {
    if m.status.Running? && m.pc < |prog| then d + Drop(Before(prog, m.pc).frame, prog[m.pc]) else d
  }

  /** And after k steps. */
  function Depth(prog: seq<Instr>, w: World, m: Machine, d: int, k: nat): int
    decreases k
  {
    if k == 0 then d else Depth(prog, w, Step(prog, w, m), DepthAfter(prog, m, d), k - 1)
  }

  lemma {:induction false} FitsEverywhere(v: View, code: seq<Instr>, h: nat -> int, k: nat)
    requires Fits(v, code, h) && k < |code|
    ensures FitsAt(ViewAll(v, code[..k]), code[k], h)
    decreases k
  {
    hide ViewAfter, FitsAt;
    if k == 0 {
      assert code[..0] == [];
    } else {
      FitsEverywhere(ViewAfter(v, code[0]), code[1..], h, k - 1);
      assert code[..k][0] == code[0] && code[..k][1..] == code[1..][..k - 1];
    }
  }

  /** The emitted code is where the view says. */
  ghost predicate Tracks(prog: seq<Instr>, m: Machine, d: int) {
    m.status.Running? && m.pc < |prog| ==> d == Before(prog, m.pc).actual
  }

  lemma StepTracks(prog: seq<Instr>, w: World, m: Machine, d: int, h: nat -> int)
    requires Fits(At(EMPTY), prog, h) && Tracks(prog, m, d)
    ensures Tracks(prog, Step(prog, w, m), DepthAfter(prog, m, d))
  {
    hide Fits, ViewAll, Effect, Read, Find, FrameAfter;
    if m.status.Running? && m.pc < |prog| {
      var i := prog[m.pc];
      FitsEverywhere(At(EMPTY), prog, h, m.pc);
      ViewNext(prog, m.pc);
      L.EffectKeepsPc(w, m, i);
      if i.dst.Label? && Find(prog, i.dst.id) < |prog| {
        FitsEverywhere(At(EMPTY), prog, h, Find(prog, i.dst.id));
      }
      if i.op.JMP? || i.op.JMP_TRUE? || i.op.JMP_FALSE? {
        JumpsDropNothing(Before(prog, m.pc).frame, i);
      }
    }
  }

  lemma JumpsDropNothing(f: Frame, i: Instr)
    requires i.op.JMP? || i.op.JMP_TRUE? || i.op.JMP_FALSE?
    ensures Drop(f, i) == 0
  {
  }

  lemma {:induction false} RunTracks(prog: seq<Instr>, w: World, m: Machine, d: int, h: nat -> int, k: nat)
    requires Fits(At(EMPTY), prog, h) && Tracks(prog, m, d)
    ensures Tracks(prog, Run(prog, w, m, k), Depth(prog, w, m, d, k))
    decreases k
  {
    hide Fits, Tracks, Step, DepthAfter;
    if k > 0 {
      StepTracks(prog, w, m, d, h);
      RunTracks(prog, w, Step(prog, w, m), DepthAfter(prog, m, d), h, k - 1);
    }
  }

  /** In every run of code that agrees rsp is as far below rbp as the tracker says, except between the
      end of a skipped block and its jump; so a return pops rbp alone exactly when rsp is at rbp. */
  lemma AgreeingRuns(prog: seq<Instr>, w: World, m: Machine, k: nat)
    requires Agrees(prog) && m.pc == 0
    ensures var e := Run(prog, w, m, k);
      e.status.Running? && e.pc < |prog| && !prog[e.pc].op.JMP? ==>
        Depth(prog, w, m, 0, k) == Before(prog, e.pc).frame.reserved
  {
    hide Fits, Run, Depth, ViewAll;
    var h: nat -> int :| Fits(At(EMPTY), prog, h);
    StartTracks(prog, m);
    RunTracks(prog, w, m, 0, h, k);
    var e := Run(prog, w, m, k);
    if e.status.Running? && e.pc < |prog| {
      FitsEverywhere(At(EMPTY), prog, h, e.pc);
    }
  }

  /** So it is in every run of such a function. */
  lemma RunsAgree(name: nat, parameters: seq<nat>, body: seq<H.Stmt>, w: World, m: Machine, k: nat)
    requires H.StmtsOk(body, false) && FunctionSkipsNothing(parameters, body)
    requires m.pc == 0
    ensures var prog := LowerFunction(name, parameters, body);
      var e := Run(prog, w, m, k);
      e.status.Running? && e.pc < |prog| && !prog[e.pc].op.JMP? ==>
        Depth(prog, w, m, 0, k) == Before(prog, e.pc).frame.reserved
  {
    hide LowerFunction, FunctionSkipsNothing, H.StmtsOk, Agrees, Run, Depth, ViewAll;
    StackAgrees(name, parameters, body);
    AgreeingRuns(LowerFunction(name, parameters, body), w, m, k);
  }

  lemma StartTracks(prog: seq<Instr>, m: Machine)
    requires m.pc == 0
    ensures Tracks(prog, m, 0)
  {
    assert prog[..0] == [];
  }

  // ----- Programs that agree and one that does not -----

  /** Breaks and continues stand directly in the block of their loop, not in blocks inside it. */
  predicate Direct(s: H.Stmt, inLoopBlock: bool)
    decreases s
  {
    match s
    case Block(body) => AllDirect(body, false)
    case If(_, body, otherwise) => AllDirect(body, false) && AllDirect(otherwise, false)
    case While(_, body, _) => AllDirect(body, true)
    case For(_, _, _, _, _, body) => AllDirect(body, true)
    case Break => inLoopBlock
    case Continue => inLoopBlock
    case _ => true
  }

  predicate AllDirect(ss: seq<H.Stmt>, inLoopBlock: bool)
    decreases ss
  {
    ss == [] || (Direct(ss[0], inLoopBlock) && AllDirect(ss[1..], inLoopBlock))
  }

  lemma {:induction false} DirectSkipsNothing(s: H.Stmt, inLoopBlock: bool, f: Frame, x: int)
    requires Direct(s, inLoopBlock) && (inLoopBlock ==> f.cache != [] && Innermost(f).reserved == x)
    ensures SkipsNothing(s, f, x, x)
    decreases s, 0
  {
    hide AfterBlock, AfterLocal;
    match s
    case Block(body) => AllDirectSkipsNothing(body, false, Pushed(f), x);
    case If(_, body, otherwise) =>
      AllDirectSkipsNothing(body, false, Pushed(f), x);
      AllDirectSkipsNothing(otherwise, false, Pushed(AfterBlock(body, f)), x);
    case While(_, body, _) => AllDirectSkipsNothing(body, true, Pushed(f), f.reserved);
    case For(counter, _, _, _, _, body) =>
      var g := AfterLocal(Pushed(f), counter);
      AllDirectSkipsNothing(body, true, Pushed(g), g.reserved);
    case _ =>
  }

  lemma {:induction false} AllDirectSkipsNothing(ss: seq<H.Stmt>, inLoopBlock: bool, f: Frame, x: int)
    requires AllDirect(ss, inLoopBlock) && (inLoopBlock ==> f.cache != [] && Innermost(f).reserved == x)
    ensures AllSkipNothing(ss, f, x, x)
    decreases ss, 1
  {
    hide AfterStmt, Direct, SkipsNothing;
    if ss != [] {
      DirectSkipsNothing(ss[0], inLoopBlock, f, x);
      StmtKeepsCache(ss[0], f);
      AllDirectSkipsNothing(ss[1..], inLoopBlock, AfterStmt(ss[0], f), x);
    }
  }

  /** When every break and continue is direct, the height agrees whatever the blocks reserve. */
  lemma DirectAgrees(name: nat, parameters: seq<nat>, body: seq<H.Stmt>)
    requires H.StmtsOk(body, false) && AllDirect(body, false)
    ensures Agrees(LowerFunction(name, parameters, body))
  {
    hide Agrees, LowerFunction, H.StmtsOk, AllDirect, AllSkipNothing;
    AllDirectSkipsNothing(body, false, AfterParameters(parameters, |parameters|), 0);
    StackAgrees(name, parameters, body);
  }

  lemma NestedOk(x: nat, c: H.Expr, d: H.Expr)
    requires H.ExprOk(c) && H.ExprOk(d)
    ensures H.StmtOk(H.While(c, [H.Declare(x, Some(H.Literal(1))), H.If(d, [H.Break], [])], false), false)
  {
    assert H.StmtOk(H.Declare(x, Some(H.Literal(1))), true);
    assert H.StmtOk(H.If(d, [H.Break], []), true);
  }

  /** while c { x = 1; if d { break } }: the break leaves the if with the room for x still taken, but
      after the loop the tracker counts on none. */
  lemma NestedBreakDisagrees(name: nat, x: nat, c: H.Expr, d: H.Expr)
    requires H.ExprOk(c) && H.ExprOk(d)
    ensures var body := [H.While(c, [H.Declare(x, Some(H.Literal(1))), H.If(d, [H.Break], [])], false)];
      H.StmtsOk(body, false) && !Agrees(LowerFunction(name, [], body))
  {
    hide Agrees, LowerFunction, H.ExprOk, H.StmtOk;
    NestedOk(x, c, d);
    var inner := [H.Declare(x, Some(H.Literal(1))), H.If(d, [H.Break], [])];
    var loop := H.While(c, inner, false);
    var g := Pushed(EMPTY);
    var g1 := AfterLocal(g, x);
    assert g1.reserved == 16;
    assert inner[1..] == [inner[1]] && [H.Break][1..] == [];
    assert !SkipsNothing(H.Break, Pushed(g1), 0, 0);
    assert !AllSkipNothing([H.Break], Pushed(g1), 0, 0);
    assert !SkipsNothing(inner[1], g1, 0, 0);
    assert !AllSkipNothing(inner[1..], g1, 0, 0);
    assert !AllSkipNothing(inner, g, 0, 0);
    assert !SkipsNothing(loop, EMPTY, 0, 0);
    StackAgrees(name, [], [loop]);
  }
}
