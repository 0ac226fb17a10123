/** The height of the machine stack along lowered code: what the tracker believes against where rsp
    really is, and for which programs the two agree at every jump. */
module StackHeights {
  import opened Words
  import opened Lir
  import opened Lowering
  import opened FrameTracking
  import H = Hir

  const WORD_SIZE: nat := 8

  /** What the backend makes of an instruction. */
  function FrameAfter(f: Frame, i: Instr): Frame {
    match i.op
    case START_BLOCK => Pushed(f)
    case END_BLOCK => if f.cache == [] then f else Ended(f, i.src == EndBlockData(true))
    case PUSH => Altered(f, PUSH_SIZE)
    case POP => Altered(f, 0 - PUSH_SIZE)
    case STORE => AfterStore(f, i.dst, i.src)
    case CALL => if i.dst.Argument? then Altered(f, 0 - StackArgumentBytes(i.dst.total)) else f
    case _ => f
  }

  /** A store makes room for a local it sees first, and pushes a stack argument. */
  function AfterStore(f: Frame, dst: Operand, src: Operand): Frame {
    match dst
    case Argument(_, _, intsPassed, _) =>
      if intsPassed < MAX_REGISTER_ARGUMENTS then f else Altered(f, PUSH_SIZE)
    case Local(uid) =>
      if uid in f.offsets then f
      else if src.Argument? && !src.isCaller && src.intsPassed >= MAX_REGISTER_ARGUMENTS then
        f.(offsets := f.offsets[uid := StackParameterOffset(src.index)])
      else Allocated(f, uid, WORD_SIZE)
    case _ => f
  }

  /** A local gets its eight bytes right below everything used so far, once. */
  lemma FirstStore(f: Frame, uid: nat, src: Operand)
    requires src.Argument? ==> src.isCaller
    ensures var g := AfterStore(f, Local(uid), src);
      if uid in f.offsets then g == f else g.used == f.used + 8 && g.offsets == f.offsets[uid := -(f.used + 8)]
  {
  }

  /** By how much the emitted code lowers rsp. A conditional end gives back what the innermost block
      reserved although the tracker keeps it. */
  function Drop(f: Frame, i: Instr): int {
    if i.op.END_BLOCK? && f.cache != [] then Innermost(f).reserved - f.reserved
    else FrameAfter(f, i).reserved - f.reserved
  }

  /** The backend's dispatch, as far as it touches the frame: it returns by how much the code it emits
      lowers rsp. */
  method EmitInstruction(state: State, i: Instr) returns (lowered: int)
    requires i.op.END_BLOCK? ==> state.stackCache != []
    modifies state
    ensures state.Tracked() == FrameAfter(old(state.Tracked()), i)
    ensures lowered == Drop(old(state.Tracked()), i)
  {
    hide RoundUp;
    lowered := 0;
    match i.op
    case START_BLOCK => state.EmitStartBlock();
    case END_BLOCK =>
      var raised := state.EmitEndBlock(i.src == EndBlockData(true));
      lowered := 0 - raised;
    case PUSH =>
      state.EmitPush();
      lowered := PUSH_SIZE;
    case POP =>
      state.EmitPop();
      lowered := 0 - PUSH_SIZE;
    case STORE => lowered := EmitStore(state, i.dst, i.src);
    case CALL =>
      if i.dst.Argument? {
        var raised := state.EmitCall(i.dst.total);
        lowered := 0 - raised;
      }
    case _ =>
  }

  /** Stack arguments are pushed; a local seen first gets its place. */
  method EmitStore(state: State, dst: Operand, src: Operand) returns (lowered: int)
    modifies state
    ensures state.Tracked() == AfterStore(old(state.Tracked()), dst, src)
    ensures lowered == state.stackReserved - old(state.stackReserved)
  {
    hide RoundUp;
    lowered := 0;
    match dst
    case Argument(_, _, intsPassed, _) =>
      if intsPassed >= MAX_REGISTER_ARGUMENTS {
        state.EmitPush();
        lowered := PUSH_SIZE;
      }
    case Local(uid) =>
      if uid !in state.offsets {
        if src.Argument? && !src.isCaller && src.intsPassed >= MAX_REGISTER_ARGUMENTS {
          state.AllocateFromCallArgument(uid, src.index);
        } else {
          lowered := state.AllocateLocalVariable(uid, WORD_SIZE);
        }
      }
    case _ =>
  }

  /** The tracked frame and the real distance from rbp down to rsp. Code after an unconditional jump
      is reached by other jumps only. */
  datatype View = View(frame: Frame, actual: int)

  function ViewAfter(v: View, i: Instr): View {
    var f := FrameAfter(v.frame, i);
    View(f, if i.op.JMP? then f.reserved else v.actual + Drop(v.frame, i))
  }

  function ViewAll(v: View, code: seq<Instr>): View
    decreases |code|
  {
    if code == [] then v else ViewAll(ViewAfter(v, code[0]), code[1..])
  }

  predicate Level(v: View) {
    v.actual == v.frame.reserved
  }

  /** Given the heights of the labels: the label is where the tracker says. */
  predicate LabelFits(v: View, i: Instr, h: nat -> int) {
    i.op.NEW_LABEL? && i.src.Label? ==> h(i.src.id) == v.frame.reserved
  }

  /** The real height is what the tracker says, and at a jump what its target expects. */
  predicate FitsAt(v: View, i: Instr, h: nat -> int) {
    && LabelFits(v, i, h)
    && (!i.op.JMP? ==> Level(v))
    && ((i.op.JMP? || i.op.JMP_TRUE? || i.op.JMP_FALSE?) && i.dst.Label? ==> v.actual == h(i.dst.id))
  }

  predicate LabelsFit(v: View, code: seq<Instr>, h: nat -> int)
    decreases |code|
  {
    code == [] || (LabelFits(v, code[0], h) && LabelsFit(ViewAfter(v, code[0]), code[1..], h))
  }

  predicate Fits(v: View, code: seq<Instr>, h: nat -> int)
    decreases |code|
  {
    code == [] || (FitsAt(v, code[0], h) && Fits(ViewAfter(v, code[0]), code[1..], h))
  }

  // ----- Segments of code -----

  /** Code that leads from one view to another. Where its labels are in place, `ok` is enough for the
      heights to fit, and `need` is necessary. */
  ghost predicate Segment(v: View, code: seq<Instr>, h: nat -> int, v': View, ok: bool, need: bool) {
    && ViewAll(v, code) == v'
    && (LabelsFit(v, code, h) && ok ==> Fits(v, code, h))
    && (LabelsFit(v, code, h) && Fits(v, code, h) ==> need)
  }

  lemma {:induction false} Concatenated(v: View, a: seq<Instr>, b: seq<Instr>, h: nat -> int)
    ensures ViewAll(v, a + b) == ViewAll(ViewAll(v, a), b)
    ensures LabelsFit(v, a + b, h) <==> LabelsFit(v, a, h) && LabelsFit(ViewAll(v, a), b, h)
    ensures Fits(v, a + b, h) <==> Fits(v, a, h) && Fits(ViewAll(v, a), b, h)
    decreases |a|
  {
    hide ViewAfter, FitsAt, LabelFits;
    if a == [] {
      assert a + b == b;
    } else {
      assert (a + b)[0] == a[0] && (a + b)[1..] == a[1..] + b;
      Concatenated(ViewAfter(v, a[0]), a[1..], b, h);
    }
  }

  lemma Sequel(v: View, a: seq<Instr>, v1: View, ok1: bool, need1: bool, b: seq<Instr>, v2: View, ok2: bool,
               need2: bool,
              h: nat -> int)
    requires Segment(v, a, h, v1, ok1, need1) && Segment(v1, b, h, v2, ok2, need2)
    ensures Segment(v, a + b, h, v2, ok1 && ok2, need1 && need2)
    ensures LabelsFit(v, a + b, h) ==> LabelsFit(v, a, h) && LabelsFit(v1, b, h)
  {
    hide ViewAll, Fits, LabelsFit;
    Concatenated(v, a, b, h);
  }

  lemma NoCode(v: View, h: nat -> int)
    ensures Segment(v, [], h, v, true, true)
  {
  }

  lemma One(v: View, i: Instr, h: nat -> int)
    ensures Segment(v, [i], h, ViewAfter(v, i), LabelFits(v, i, h) ==> FitsAt(v, i, h), LabelFits(v, i,
        h) ==> FitsAt(v, i, h))
    ensures LabelsFit(v, [i], h) <==> LabelFits(v, i, h)
  {
    hide ViewAfter, FitsAt, LabelFits;
    var code := [i];
    assert code[0] == i && code[1..] == [];
    assert Fits(ViewAfter(v, i), code[1..], h) && LabelsFit(ViewAfter(v, i), code[1..], h);
    assert ViewAll(ViewAfter(v, i), code[1..]) == ViewAfter(v, i);
    FitsHasLabel(v, i, h);
  }

  lemma FitsHasLabel(v: View, i: Instr, h: nat -> int)
    ensures FitsAt(v, i, h) ==> LabelFits(v, i, h)
  {
  }

  /** A view k pushed words higher. */
  function Up(v: View, k: int): View {
    View(Altered(v.frame, k * PUSH_SIZE), v.actual + k * PUSH_SIZE)
  }

  lemma UpMore(v: View, k: int, j: int)
    ensures Up(Up(v, k), j) == Up(v, k + j) && Up(v, 0) == v && (Level(v) ==> Level(Up(v, k)))
  {
  }

  /** An instruction that leaves the height alone. */
  predicate Steady(i: Instr) {
    || IsMath(i.op) || IsSet(i.op) || i.op.LOAD? || i.op.COMPARE? || i.op.NEG? || i.op.NOT? || i.op.BOOL_NOT?
    || i.op.RETURN? || i.op.START_FUNC? || i.op.END_FUNC? || i.op.EOF?
    || (i.op.STORE? && i.dst.Argument? && i.dst.intsPassed < MAX_REGISTER_ARGUMENTS)
  }

  lemma SteadyStep(v: View, i: Instr, h: nat -> int)
    requires Level(v) && Steady(i)
    ensures Segment(v, [i], h, v, true, true)
  {
    One(v, i, h);
  }

  lemma PushStep(v: View, i: Instr, h: nat -> int)
    requires Level(v) && i.op.PUSH?
    ensures Segment(v, [i], h, Up(v, 1), true, true)
  {
    One(v, i, h);
  }

  lemma PopStep(v: View, i: Instr, h: nat -> int)
    requires Level(v) && i.op.POP?
    ensures Segment(v, [i], h, Up(v, -1), true, true)
  {
    One(v, i, h);
  }

  /** A conditional jump fits when its target is at this height. */
  lemma TestStep(v: View, i: Instr, id: nat, h: nat -> int)
    requires Level(v) && (i.op.JMP_TRUE? || i.op.JMP_FALSE?) && i.dst == Label(id)
    ensures Segment(v, [i], h, v, h(id) == v.frame.reserved, true)
  {
    One(v, i, h);
  }

  lemma LabelStep(v: View, id: nat, h: nat -> int)
    requires Level(v)
    ensures Segment(v, [NewLabel(id)], h, v, true, true)
    ensures LabelsFit(v, [NewLabel(id)], h) <==> h(id) == v.frame.reserved
  {
    One(v, NewLabel(id), h);
  }

  lemma JumpStep(v: View, i: Instr, id: nat, h: nat -> int)
    requires Level(v) && i.op.JMP? && i.dst == Label(id)
    ensures Segment(v, [i], h, v, h(id) == v.frame.reserved, true)
  {
    One(v, i, h);
  }

  // ----- Expressions leave the height where it was -----

  /** A segment whose heights fit whenever its labels are in place. */
  ghost predicate Flat(v: View, code: seq<Instr>, h: nat -> int, v': View) {
    Segment(v, code, h, v', true, true)
  }

  lemma FlatThen(v: View, a: seq<Instr>, v1: View, b: seq<Instr>, v2: View, h: nat -> int)
    requires Flat(v, a, h, v1) && Flat(v1, b, h, v2)
    ensures Flat(v, a + b, h, v2)
  {
    hide Segment;
    Sequel(v, a, v1, true, true, b, v2, true, true, h);
  }

  lemma FlatPair(v: View, a: Instr, v1: View, b: Instr, v2: View, h: nat -> int)
    requires Flat(v, [a], h, v1) && Flat(v1, [b], h, v2)
    ensures Flat(v, [a, b], h, v2)
  {
    hide Flat;
    FlatThen(v, [a], v1, [b], v2, h);
    assert [a] + [b] == [a, b];
  }

  lemma LoadedFlat(v: View, o: Operand, i: Instr, h: nat -> int)
    requires Level(v) && Steady(i)
    ensures Flat(v, [Load(T1, o), i], h, v)
  {
    SteadyStep(v, Load(T1, o), h);
    SteadyStep(v, i, h);
    hide Segment;
    FlatPair(v, Load(T1, o), v, i, v, h);
  }

  lemma {:induction false} ExprFlat(e: H.Expr, n: nat, v: View, h: nat -> int)
    requires Level(v)
    ensures Flat(v, LowerExpr(e, n).code, h, v)
    decreases e, 2
  {
    hide Segment, Level, LowerPushed, LowerTerms, LowerComparison, LowerLinks, LowerComplexArguments,
      LowerPlainArguments, StoreComplexArguments, Join, ConditionTail;
    match e
    case Literal(_) => NoCode(v, h);
    case Variable(_) => NoCode(v, h);
    case Math(first, rest) => MathFlat(first, rest, n, v, h);
    case Condition(head, links) => ConditionFlat(head, links, n, v, h);
    case Unary(unary, operand) =>
      var x := LowerExpr(operand, n);
      ExprFlat(operand, n, v, h);
      LoadedFlat(v, x.operand, Instr(UnaryOpcode(unary), T1, Nothing), h);
      FlatThen(v, x.code, v, [Load(T1, x.operand), Instr(UnaryOpcode(unary), T1, Nothing)], v, h);
    case Cast(value) =>
      var x := LowerExpr(value, n);
      ExprFlat(value, n, v, h);
      SteadyStep(v, Load(T1, x.operand), h);
      FlatThen(v, x.code, v, [Load(T1, x.operand)], v, h);
    case Call(callee, arguments) => CallFlat(callee, arguments, n, v, h);
  }

  lemma {:induction false} PushedFlat(e: H.Expr, n: nat, v: View, h: nat -> int)
    requires Level(v)
    ensures Flat(v, LowerPushed(e, n).code, h, Up(v, 1))
    decreases e, 3
  {
    var x := LowerExpr(e, n);
    ExprFlat(e, n, v, h);
    SteadyStep(v, Load(T1, x.operand), h);
    PushStep(v, Push(T1), h);
    hide Segment, LowerExpr;
    FlatPair(v, Load(T1, x.operand), v, Push(T1), Up(v, 1), h);
    FlatThen(v, x.code, v, [Load(T1, x.operand), Push(T1)], Up(v, 1), h);
  }

  /** Two values are popped and one is pushed. */
  lemma DoMathFlat(op: H.MathToken, v: View, h: nat -> int)
    requires Level(v)
    ensures Flat(Up(v, 2), DoMathOperation(op), h, Up(v, 1))
  {
    UpMore(v, 2, -1);
    UpMore(v, 1, -1);
    UpMore(v, 0, 1);
    PopPopFlat(v, Instr(MathOpcode(op), T1, T2), h);
    PushStep(v, Push(T1), h);
    hide Segment;
    FlatThen(Up(v, 2), [Pop(T2), Pop(T1), Instr(MathOpcode(op), T1, T2)], v, [Push(T1)], Up(v, 1), h);
    assert [Pop(T2), Pop(T1), Instr(MathOpcode(op), T1, T2)] + [Push(T1)] == DoMathOperation(op);
  }

  lemma PopPopFlat(v: View, i: Instr, h: nat -> int)
    requires Level(v) && Steady(i)
    ensures Flat(Up(v, 2), [Pop(T2), Pop(T1), i], h, v)
  {
    UpMore(v, 2, -1);
    UpMore(v, 1, -1);
    UpMore(v, 0, 0);
    PopStep(Up(v, 2), Pop(T2), h);
    PopStep(Up(v, 1), Pop(T1), h);
    SteadyStep(v, i, h);
    hide Segment;
    FlatPair(Up(v, 2), Pop(T2), Up(v, 1), Pop(T1), v, h);
    FlatThen(Up(v, 2), [Pop(T2), Pop(T1)], v, [i], v, h);
    assert [Pop(T2), Pop(T1)] + [i] == [Pop(T2), Pop(T1), i];
  }

  lemma {:induction false} FlushFlat(delayed: seq<H.MathToken>, v: View, h: nat -> int)
    requires Level(v)
    ensures Flat(Up(v, |delayed| + 1), Flush(delayed), h, Up(v, 1))
    decreases |delayed|
  {
    hide Segment, DoMathOperation;
    if delayed == [] {
      NoCode(Up(v, 1), h);
    } else {
      var k := |delayed| - 1;
      UpMore(v, k, 2);
      UpMore(v, k, 1);
      DoMathFlat(delayed[k], Up(v, k), h);
      FlushFlat(delayed[..k], v, h);
      FlatThen(Up(v, k + 2), DoMathOperation(delayed[k]), Up(v, k + 1), Flush(delayed[..k]), Up(v, 1), h);
    }
  }

  lemma {:induction false} TermsFlat(rest: seq<H.Term>, delayed: seq<H.MathToken>, n: nat, v: View, h: nat -> int)
    requires Level(v)
    ensures Flat(Up(v, |delayed| + 1), LowerTerms(rest, delayed, n).code, h, Up(v, 1))
    decreases rest
  {
    hide Segment, Flush, LowerPushed, H.Precedence, Up, Level;
    if rest == [] {
      FlushFlat(delayed, v, h);
    } else {
      var term: H.Term := rest[0];
      var operand := term.operand;
      assert operand < term;
      var k := Keep(delayed, H.Precedence(term.op));
      var kept := delayed[..k] + [term.op];
      var x := LowerPushed(operand, n);
      UpMore(v, k, |delayed[k..]| + 1);
      UpMore(v, k, 1);
      UpMore(v, k + 1, 1);
      FlushFlat(delayed[k..], Up(v, k), h);
      PushedFlat(operand, n, Up(v, k + 1), h);
      TermsFlat(rest[1..], kept, x.next, v, h);
      FlatThen(Up(v, |delayed| + 1), Flush(delayed[k..]), Up(v, k + 1), x.code, Up(v, k + 2), h);
      FlatThen(Up(v, |delayed| + 1), Flush(delayed[k..]) + x.code, Up(v, k + 2),
               LowerTerms(rest[1..], kept, x.next).code, Up(v, 1), h);
    }
  }

  lemma {:induction false} MathFlat(first: H.Expr, rest: seq<H.Term>, n: nat, v: View, h: nat -> int)
    requires Level(v)
    ensures Flat(v, LowerExpr(H.Math(first, rest), n).code, h, v)
    decreases H.Math(first, rest), 0
  {
    hide Segment, LowerPushed, LowerTerms, Up, Level;
    var f := LowerPushed(first, n);
    var r := LowerTerms(rest, [], f.next);
    UpMore(v, 1, -1);
    UpMore(v, 0, 0);
    PushedFlat(first, n, v, h);
    TermsFlat(rest, [], f.next, v, h);
    PopStep(Up(v, 1), Pop(T1), h);
    FlatThen(v, f.code, Up(v, 1), r.code, Up(v, 1), h);
    FlatThen(v, f.code + r.code, Up(v, 1), [Pop(T1)], v, h);
  }

  lemma {:induction false} ComparisonFlat(c: H.Comparison, n: nat, v: View, h: nat -> int)
    requires Level(v)
    ensures Flat(v, LowerComparison(c, n).code, h, v)
    decreases c
  {
    hide Segment, LowerPushed, Up, Level;
    var l := LowerPushed(c.lhs, n);
    var r := LowerPushed(c.rhs, l.next);
    var first := [Pop(T2), Pop(T1), Instr(COMPARE, T1, T2)];
    var last := Instr(CompareOpcode(c.op), T1, T1);
    UpMore(v, 1, 1);
    PushedFlat(c.lhs, n, v, h);
    PushedFlat(c.rhs, l.next, Up(v, 1), h);
    PopPopFlat(v, Instr(COMPARE, T1, T2), h);
    SteadyStep(v, last, h);
    FlatThen(Up(v, 2), first, v, [last], v, h);
    assert first + [last] == ComparisonTail(c.op);
    FlatThen(v, l.code, Up(v, 1), r.code, Up(v, 2), h);
    FlatThen(v, l.code + r.code, Up(v, 2), ComparisonTail(c.op), v, h);
  }

  /** Joins jump at the height at which the chain started. */
  lemma JoinFlat(useAnd: bool, links: seq<H.Link>, trueLabel: nat, falseLabel: nat, v: View, h: nat -> int)
    requires Level(v) && h(trueLabel) == v.frame.reserved == h(falseLabel)
    ensures Flat(Up(v, 1), Join(useAnd, links, trueLabel, falseLabel), h, Up(v, 1))
  {
    var join := Join(useAnd, links, trueLabel, falseLabel);
    UpMore(v, 1, -1);
    UpMore(v, 0, 0);
    PopStep(Up(v, 1), join[0], h);
    SteadyStep(v, join[1], h);
    TestStep(v, join[2], join[2].dst.id, h);
    PushStep(v, join[3], h);
    hide Segment;
    FlatPair(Up(v, 1), join[0], v, join[1], v, h);
    FlatPair(v, join[2], v, join[3], Up(v, 1), h);
    FlatThen(Up(v, 1), [join[0], join[1]], v, [join[2], join[3]], Up(v, 1), h);
    assert [join[0], join[1]] + [join[2], join[3]] == join;
  }

  lemma {:induction false} LinksFlat(links: seq<H.Link>, n: nat, trueLabel: nat, falseLabel: nat, v: View,
                                     h: nat -> int)
    requires Level(v) && h(trueLabel) == v.frame.reserved == h(falseLabel)
    ensures Flat(Up(v, 1), LowerLinks(links, n, trueLabel, falseLabel).code, h, Up(v, 1))
    decreases links
  {
    hide Segment, LowerComparison, Join, Up, Level;
    if links == [] {
      NoCode(Up(v, 1), h);
    } else {
      var link: H.Link := links[0];
      var comparison := link.comparison;
      assert comparison < link;
      var c := LowerComparison(comparison, n);
      var join := Join(link.chain.BoolAnd?, links[1..], trueLabel, falseLabel);
      UpMore(v, 1, 0);
      UpMore(v, 1, 1);
      ComparisonFlat(comparison, n, Up(v, 1), h);
      JoinFlat(link.chain.BoolAnd?, links[1..], trueLabel, falseLabel, v, h);
      LinksFlat(links[1..], c.next, trueLabel, falseLabel, v, h);
      FlatThen(Up(v, 1), c.code, Up(v, 1), join, Up(v, 1), h);
      FlatThen(Up(v, 1), c.code + join, Up(v, 1), LowerLinks(links[1..], c.next, trueLabel, falseLabel).code, Up(v,
          1), h);
    }
  }

  /** The end of a chain: every path meets at the height at which the chain started. */
  lemma ConditionTailFits(t: nat, f: nat, d: nat, v: View, h: nat -> int)
    requires Level(v)
    ensures Segment(Up(v, 1), ConditionTail(t, f, d), h, v, h(d) == v.frame.reserved, true)
    ensures LabelsFit(Up(v, 1), ConditionTail(t, f, d), h) ==>
      h(t) == v.frame.reserved && h(f) == v.frame.reserved && h(d) == v.frame.reserved
  {
    var tail := ConditionTail(t, f, d);
    UpMore(v, 1, -1);
    UpMore(v, 0, 0);
    PopStep(Up(v, 1), tail[0], h);
    LabelStep(v, t, h);
    JumpStep(v, tail[2], d, h);
    LabelStep(v, f, h);
    SteadyStep(v, tail[4], h);
    LabelStep(v, d, h);
    hide Segment, LabelsFit, Level, Up;
    var ok := h(d) == v.frame.reserved;
    Sequel(v, [tail[4]], v, true, true, [tail[5]], v, true, true, h);
    Sequel(v, [tail[3]], v, true, true, [tail[4]] + [tail[5]], v, true, true, h);
    Sequel(v, [tail[2]], v, ok, true, [tail[3]] + ([tail[4]] + [tail[5]]), v, true, true, h);
    Sequel(v, [tail[1]], v, true, true, [tail[2]] + ([tail[3]] + ([tail[4]] + [tail[5]])), v, ok, true, h);
    Sequel(Up(v, 1), [tail[0]], v, true, true, [tail[1]] + ([tail[2]] + ([tail[3]] + ([tail[4]] + [tail[5]]))), v, ok,
           true, h);
    assert tail == [tail[0]] + ([tail[1]] + ([tail[2]] + ([tail[3]] + ([tail[4]] + [tail[5]]))));
  }

  lemma {:induction false} ConditionFlat(head: H.Comparison, links: seq<H.Link>, n: nat, v: View, h: nat -> int)
    requires Level(v)
    ensures Flat(v, LowerExpr(H.Condition(head, links), n).code, h, v)
    decreases H.Condition(head, links), 1
  {
    hide Segment, LowerComparison, LowerLinks, Join, ConditionTail, Up, Level, LabelsFit;
    if links == [] {
      ComparisonFlat(head, n + 1, v, h);
    } else {
      var c := LowerComparison(head, n + 2);
      var r := LowerLinks(links, c.next, n, n + 1);
      var body := [Load(T1, Imm(0)), Push(T1)] + c.code + Join(false, links, n, n + 1) + r.code;
      var tail := ConditionTail(n, n + 1, r.next);
      var here := v.frame.reserved;
      ConditionTailFits(n, n + 1, r.next, v, h);
      if h(n) == here && h(n + 1) == here {
        ChainFlat(head, links, n, v, h);
        Sequel(v, body, Up(v, 1), true, true, tail, v, h(r.next) == here, true, h);
        SegmentOk(v, body + tail, h, v, h(r.next) == here, true);
      } else {
        ChainFlat(head, links, n, v, x => here);
        ConditionTailFits(n, n + 1, r.next, v, x => here);
        Sequel(v, body, Up(v, 1), true, true, tail, v, (x => here)(r.next) == here, true, x => here);
        SegmentViews(v, body, x => here, Up(v, 1), true, true);
        Concatenated(v, body, tail, h);
        SegmentBroken(v, body + tail, x => here, h, v);
      }
    }
  }

  lemma SegmentOk(v: View, code: seq<Instr>, h: nat -> int, v': View, ok: bool, need: bool)
    requires Segment(v, code, h, v', ok, need) && (LabelsFit(v, code, h) ==> ok)
    ensures Segment(v, code, h, v', true, need)
  {
  }

  lemma SegmentViews(v: View, code: seq<Instr>, h: nat -> int, v': View, ok: bool, need: bool)
    requires Segment(v, code, h, v', ok, need)
    ensures ViewAll(v, code) == v'
  {
  }

  lemma SegmentBroken(v: View, code: seq<Instr>, h': nat -> int, h: nat -> int, v': View)
    requires Segment(v, code, h', v', true, true) && !LabelsFit(v, code, h)
    ensures Flat(v, code, h, v')
  {
  }

  lemma {:induction false} ChainFlat(head: H.Comparison, links: seq<H.Link>, n: nat, v: View, h: nat -> int)
    requires Level(v) && h(n) == v.frame.reserved == h(n + 1)
    ensures var c := LowerComparison(head, n + 2);
      Flat(v, [Load(T1, Imm(0)), Push(T1)] + c.code + Join(false, links, n, n + 1) + LowerLinks(links, c.next, n,
          n + 1).code,
           h, Up(v, 1))
    decreases H.Condition(head, links), 0
  {
    hide Segment, LowerComparison, LowerLinks, Join, Up, Level;
    var c := LowerComparison(head, n + 2);
    var start := [Load(T1, Imm(0)), Push(T1)];
    var join := Join(false, links, n, n + 1);
    UpMore(v, 1, 0);
    SteadyStep(v, Load(T1, Imm(0)), h);
    PushStep(v, Push(T1), h);
    FlatPair(v, Load(T1, Imm(0)), v, Push(T1), Up(v, 1), h);
    ComparisonFlat(head, n + 2, Up(v, 1), h);
    JoinFlat(false, links, n, n + 1, v, h);
    LinksFlat(links, c.next, n, n + 1, v, h);
    FlatThen(v, start, Up(v, 1), c.code, Up(v, 1), h);
    FlatThen(v, start + c.code, Up(v, 1), join, Up(v, 1), h);
    FlatThen(v, start + c.code + join, Up(v, 1), LowerLinks(links, c.next, n, n + 1).code, Up(v, 1), h);
  }

  // ----- Calls -----

  function ComplexCount(es: seq<H.Expr>): nat {
    if es == [] then 0 else ComplexCount(es[..|es| - 1]) + if H.IsComplex(es[|es| - 1]) then 1 else 0
  }

  /** How many of the arguments, complex or not, are passed on the stack. */
  function OnStack(es: seq<H.Expr>, complex: bool): nat {
    if es == [] then 0
    else
      OnStack(es[..|es| - 1], complex) +
      if |es| > MAX_REGISTER_ARGUMENTS && H.IsComplex(es[|es| - 1]) == complex then 1 else 0
  }

  lemma {:induction false} AllOnStack(es: seq<H.Expr>)
    ensures (OnStack(es, true) + OnStack(es, false)) * PUSH_SIZE == StackArgumentBytes(|es|)
    decreases |es|
  {
    hide H.IsComplex;
    if es != [] {
      AllOnStack(es[..|es| - 1]);
    }
  }

  lemma StoreArgumentFlat(i: nat, total: nat, v: View, h: nat -> int)
    requires Level(v)
    ensures Flat(v, [StoreArgument(i, total)], h, Up(v, if i < MAX_REGISTER_ARGUMENTS then 0 else 1))
  {
    UpMore(v, 0, 0);
    One(v, StoreArgument(i, total), h);
  }

  lemma {:induction false} ComplexArgumentsFlat(es: seq<H.Expr>, n: nat, v: View, h: nat -> int)
    requires Level(v)
    ensures Flat(v, LowerComplexArguments(es, n).code, h, Up(v, ComplexCount(es)))
    decreases es, 0
  {
    hide Segment, LowerPushed, H.IsComplex, Up, Level;
    UpMore(v, 0, 0);
    if es == [] {
      NoCode(v, h);
    } else {
      var last := es[|es| - 1];
      var before := es[..|es| - 1];
      if !H.IsComplex(last) {
        ComplexArgumentsFlat(before, n, v, h);
      } else {
        var x := LowerPushed(last, n);
        UpMore(v, 1, 0);
        UpMore(v, 1, ComplexCount(before));
        PushedFlat(last, n, v, h);
        ComplexArgumentsFlat(before, x.next, Up(v, 1), h);
        FlatThen(v, x.code, Up(v, 1), LowerComplexArguments(before, x.next).code, Up(v, ComplexCount(es)), h);
      }
    }
  }

  lemma {:induction false} StoresFlat(es: seq<H.Expr>, total: nat, v: View, h: nat -> int)
    requires Level(v)
    ensures Flat(v, StoreComplexArguments(es, total), h, Up(v, OnStack(es, true) - ComplexCount(es)))
    decreases |es|
  {
    hide Segment, H.IsComplex, Up, Level;
    UpMore(v, 0, 0);
    if es == [] {
      NoCode(v, h);
    } else {
      var i := |es| - 1;
      var k := OnStack(es[..i], true) - ComplexCount(es[..i]);
      StoresFlat(es[..i], total, v, h);
      UpMore(v, k, 0);
      if H.IsComplex(es[i]) {
        UpMore(v, k, -1);
        UpMore(Up(v, k), -1, 0);
        UpMore(v, k - 1, if i < MAX_REGISTER_ARGUMENTS then 0 else 1);
        PopStep(Up(v, k), Pop(T1), h);
        StoreArgumentFlat(i, total, Up(v, k - 1), h);
        var after := OnStack(es, true) - ComplexCount(es);
        FlatPair(Up(v, k), Pop(T1), Up(v, k - 1), StoreArgument(i, total), Up(v, after), h);
        FlatThen(v, StoreComplexArguments(es[..i], total), Up(v, k), [Pop(T1), StoreArgument(i, total)], Up(v, after),
                 h);
      } else {
        assert StoreComplexArguments(es[..i], total) + [] == StoreComplexArguments(es[..i], total);
      }
    }
  }

  lemma {:induction false} PlainArgumentsFlat(es: seq<H.Expr>, total: nat, n: nat, v: View, h: nat -> int)
    requires Level(v)
    ensures Flat(v, LowerPlainArguments(es, total, n).code, h, Up(v, OnStack(es, false)))
    decreases es, 0
  {
    hide Segment, LowerExpr, H.IsComplex, Up, Level;
    UpMore(v, 0, 0);
    if es == [] {
      NoCode(v, h);
    } else {
      var i := |es| - 1;
      var last := es[i];
      if H.IsComplex(last) {
        PlainArgumentsFlat(es[..i], total, n, v, h);
      } else {
        var x := LowerExpr(last, n);
        var j := if i < MAX_REGISTER_ARGUMENTS then 0 else 1;
        var more := LowerPlainArguments(es[..i], total, x.next);
        UpMore(v, j, 0);
        UpMore(v, j, OnStack(es[..i], false));
        ExprFlat(last, n, v, h);
        SteadyStep(v, Load(T1, x.operand), h);
        StoreArgumentFlat(i, total, v, h);
        FlatPair(v, Load(T1, x.operand), v, StoreArgument(i, total), Up(v, j), h);
        FlatThen(v, x.code, v, [Load(T1, x.operand), StoreArgument(i, total)], Up(v, j), h);
        PlainArgumentsFlat(es[..i], total, x.next, Up(v, j), h);
        FlatThen(v, x.code + [Load(T1, x.operand), StoreArgument(i, total)], Up(v, j), more.code,
                 Up(v, OnStack(es, false)), h);
      }
    }
  }

  lemma CallStep(callee: nat, total: nat, v: View, k: int, h: nat -> int)
    requires Level(v) && k * PUSH_SIZE == StackArgumentBytes(total)
    ensures Flat(Up(v, k), [CallInstr(callee, total)], h, v)
  {
    One(Up(v, k), CallInstr(callee, total), h);
  }

  lemma {:induction false} CallFlat(callee: nat, arguments: seq<H.Expr>, n: nat, v: View, h: nat -> int)
    requires Level(v)
    ensures Flat(v, LowerExpr(H.Call(callee, arguments), n).code, h, v)
    decreases arguments, 1
  {
    hide Segment, LowerComplexArguments, LowerPlainArguments, StoreComplexArguments, Up, Level;
    var total := |arguments|;
    var a := LowerComplexArguments(arguments, n);
    var s := StoreComplexArguments(arguments, total);
    var b := LowerPlainArguments(arguments, total, a.next);
    var count, onStack := ComplexCount(arguments), OnStack(arguments, true);
    var all := onStack + OnStack(arguments, false);
    UpMore(v, count, onStack - count);
    UpMore(v, onStack, OnStack(arguments, false));
    ComplexArgumentsFlat(arguments, n, v, h);
    StoresFlat(arguments, total, Up(v, count), h);
    PlainArgumentsFlat(arguments, total, a.next, Up(v, onStack), h);
    AllOnStack(arguments);
    CallStep(callee, total, v, all, h);
    FlatThen(v, a.code, Up(v, count), s, Up(v, onStack), h);
    FlatThen(v, a.code + s, Up(v, onStack), b.code, Up(v, all), h);
    FlatThen(v, a.code + s + b.code, Up(v, all), [CallInstr(callee, total)], v, h);
  }
}
