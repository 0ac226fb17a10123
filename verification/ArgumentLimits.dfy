/** Exactly which calls pass their arguments: what counts is the shape of the list, that is which
    arguments are complex, which argument registers the others spare and which of them divide. */
module ArgumentLimits {
  import opened Words
  import opened Environment
  import opened Lir
  import opened Lowering
  import opened Runs
  import opened Fragments
  import opened CallSim
  import opened ExprSim
  import opened ExprLimits
  import Labels
  import H = Hir

  // ----- Shapes -----

  /** Is there a division among the operators? Products and divisions spare the same registers. */
  predicate Divides(e: H.Expr) {
    match e
    case Literal(_) => false
    case Variable(_) => false
    case Math(first, rest) => Divides(first) || exists i :: 0 <= i < |rest| && TermDivides(rest[i])
    case Condition(head, links) =>
      ComparisonDivides(head) || exists i :: 0 <= i < |links| && LinkDivides(links[i])
    case Unary(_, operand) => Divides(operand)
    case Cast(value) => Divides(value)
    case Call(_, _) => false
  }

  predicate TermDivides(t: H.Term) {
    t.op.Slash? || t.op.Percent? || Divides(t.operand)
  }

  predicate ComparisonDivides(c: H.Comparison) {
    Divides(c.lhs) || Divides(c.rhs)
  }

  predicate LinkDivides(l: H.Link) {
    ComparisonDivides(l.comparison)
  }

  predicate AlikeArguments(e: H.Expr, e': H.Expr) {
    && H.IsComplex(e) == H.IsComplex(e')
    && (!H.IsComplex(e) ==> forall j :: 0 <= j < MAX_REGISTER_ARGUMENTS ==> H.Spares(e, j) == H.Spares(e', j))
    && (!H.IsComplex(e) && H.Spares(e, 0) ==> Divides(e) == Divides(e'))
  }

  /** A division does not spare the register of remainders. */
  lemma {:induction false} DivisionSpoils(e: H.Expr)
    requires H.Spares(e, H.REMAINDER_PLACE)
    ensures !Divides(e)
    decreases e
  {
    match e
    case Literal(_) =>
    case Variable(_) =>
    case Math(first, rest) =>
      DivisionSpoils(first);
      forall i | 0 <= i < |rest|
        ensures !TermDivides(rest[i])
      {
        assert H.TermSpares(rest[i], H.REMAINDER_PLACE);
        DivisionSpoils(rest[i].operand);
      }
    case Condition(head, links) =>
      ComparisonSpoils(head);
      forall i | 0 <= i < |links|
        ensures !LinkDivides(links[i])
      {
        assert H.LinkSpares(links[i], H.REMAINDER_PLACE);
        ComparisonSpoils(links[i].comparison);
      }
    case Unary(_, operand) => DivisionSpoils(operand);
    case Cast(value) => DivisionSpoils(value);
  }

  lemma {:induction false} ComparisonSpoils(c: H.Comparison)
    requires H.ComparisonSpares(c, H.REMAINDER_PLACE)
    ensures !ComparisonDivides(c)
    decreases c
  {
    hide H.Spares;
    DivisionSpoils(c.lhs);
    DivisionSpoils(c.rhs);
  }

  predicate SameShape(es: seq<H.Expr>, es': seq<H.Expr>) {
    |es| == |es'| && forall i :: 0 <= i < |es| ==> AlikeArguments(es[i], es'[i])
  }

  predicate AllOk(es: seq<H.Expr>) {
    forall i :: 0 <= i < |es| ==> H.ExprOk(es[i])
  }

  lemma ShapeDecides(es: seq<H.Expr>, es': seq<H.Expr>)
    requires SameShape(es, es')
    ensures H.ArgumentsOk(es) <==> H.ArgumentsOk(es')
  {
    hide H.IsComplex, H.Spares, H.ArgumentsOk;
    assert SameShape(es', es);
    if H.ArgumentsOk(es) {
      ShapeKeeps(es, es');
    }
    if H.ArgumentsOk(es') {
      ShapeKeeps(es', es);
    }
  }

  lemma ShapeKeeps(es: seq<H.Expr>, es': seq<H.Expr>)
    requires SameShape(es, es') && H.ArgumentsOk(es)
    ensures H.ArgumentsOk(es')
  {
    hide H.IsComplex, H.Spares;
    forall i, j | 0 <= i < |es'| && !H.IsComplex(es'[i]) && 0 <= j < |es'| && H.Filled(es', j, i)
      ensures H.Spares(es'[i], j)
    {
      assert AlikeArguments(es[i], es'[i]) && AlikeArguments(es[j], es'[j]);
      assert H.Filled(es, j, i);
    }
    forall i, j | H.REGISTER_ARGUMENTS <= i < j < |es'| && H.IsComplex(es'[i])
      ensures H.IsComplex(es'[j])
    {
      assert AlikeArguments(es[i], es'[i]) && AlikeArguments(es[j], es'[j]);
    }
  }

  /** There are four kinds of expressions: what spares one register spares others. */
  predicate SparesLess(j: nat, k: nat) {
    j == H.SECOND_PLACE || j == k || (k != H.SECOND_PLACE && (j == H.REMAINDER_PLACE || k != H.REMAINDER_PLACE))
  }

  lemma {:induction false} SparesAlso(e: H.Expr, j: nat, k: nat)
    requires H.Spares(e, j) && SparesLess(j, k)
    ensures H.Spares(e, k)
    decreases e
  {
    hide SparesLess;
    match e
    case Literal(_) =>
    case Variable(_) =>
    case Math(first, rest) =>
      SparesAlso(first, j, k);
      forall i | 0 <= i < |rest|
        ensures H.TermSpares(rest[i], k)
      {
        assert H.TermSpares(rest[i], j);
        OperatorSparesAlso(rest[i].op, j, k);
        SparesAlso(rest[i].operand, j, k);
      }
    case Condition(head, links) =>
      ComparisonSparesAlso(head, j, k);
      forall i | 0 <= i < |links|
        ensures H.LinkSpares(links[i], k)
      {
        assert H.LinkSpares(links[i], j);
        ComparisonSparesAlso(links[i].comparison, j, k);
      }
    case Unary(_, operand) => SparesAlso(operand, j, k);
    case Cast(value) => SparesAlso(value, j, k);
  }

  lemma OperatorSparesAlso(op: H.MathToken, j: nat, k: nat)
    requires H.OperatorSpares(op, j) && SparesLess(j, k)
    ensures H.OperatorSpares(op, k)
  {
  }

  lemma {:induction false} ComparisonSparesAlso(c: H.Comparison, j: nat, k: nat)
    requires H.ComparisonSpares(c, j) && SparesLess(j, k)
    ensures H.ComparisonSpares(c, k)
    decreases c
  {
    hide H.Spares;
    SparesAlso(c.lhs, j, k);
    SparesAlso(c.rhs, j, k);
  }

  // ----- One argument of each kind -----

  function Negated(a: Word, op: H.MathToken, b: Word): H.Expr {
    H.Unary(H.Negate, H.Math(H.Literal(a), [H.Term(op, H.Literal(b))]))
  }

  /** An argument of the same kind whose value is known. */
  function Sample(e: H.Expr): H.Expr {
    if H.IsComplex(e) then H.Math(H.Literal(0), [])
    else if H.Spares(e, H.SECOND_PLACE) then H.Literal(1)
    else if H.Spares(e, H.REMAINDER_PLACE) then Negated(7, H.Plus, 8)
    else if H.Spares(e, 0) then (if Divides(e) then Negated(15, H.Slash, 8) else Negated(1, H.Star, 8))
    else NegatedCall()
  }

  function SampleValue(e: H.Expr): Word {
    if H.IsComplex(e) then 0
    else if H.Spares(e, H.SECOND_PLACE) then 1
    else if H.Spares(e, H.REMAINDER_PLACE) then -15
    else if H.Spares(e, 0) then (if Divides(e) then -1 else -8)
    else -5
  }

  function Samples(es: seq<H.Expr>): (r: seq<H.Expr>)
    ensures |r| == |es|
  {
    seq(|es|, i requires 0 <= i < |es| => Sample(es[i]))
  }

  lemma NegatedSpares(a: Word, op: H.MathToken, b: Word, j: nat)
    ensures H.Spares(Negated(a, op, b), j) == H.OperatorSpares(op, j)
  {
    var t := H.Term(op, H.Literal(b));
    assert H.TermSpares(t, j) == H.OperatorSpares(op, j);
    assert H.Spares(H.Math(H.Literal(a), [t]), j) == H.TermSpares([t][0], j);
  }

  lemma SampleAlike(e: H.Expr)
    ensures AlikeArguments(e, Sample(e))
  {
    hide H.Spares, H.IsComplex;
    SampleComplex(e);
    forall j | 0 <= j < MAX_REGISTER_ARGUMENTS && !H.IsComplex(e)
      ensures H.Spares(e, j) == H.Spares(Sample(e), j)
    {
      SampleSpares(e, j);
    }
    if !H.IsComplex(e) && H.Spares(e, 0) {
      SampleDivides(e);
    }
  }

  lemma NegatedDivides(a: Word, op: H.MathToken, b: Word)
    ensures Divides(Negated(a, op, b)) == (op.Slash? || op.Percent?)
  {
    var t := H.Term(op, H.Literal(b));
    assert TermDivides(t) == (op.Slash? || op.Percent?);
    assert Divides(H.Math(H.Literal(a), [t])) == TermDivides([t][0]);
  }

  lemma SampleDivides(e: H.Expr)
    requires !H.IsComplex(e) && H.Spares(e, 0)
    ensures Divides(Sample(e)) == Divides(e)
  {
    NegatedDivides(7, H.Plus, 8);
    NegatedDivides(15, H.Slash, 8);
    NegatedDivides(1, H.Star, 8);
    assert !Divides(H.Literal(1));
    hide H.Spares, H.IsComplex, Divides;
    if H.Spares(e, H.SECOND_PLACE) {
      assert SparesLess(H.SECOND_PLACE, H.REMAINDER_PLACE);
      SparesAlso(e, H.SECOND_PLACE, H.REMAINDER_PLACE);
    }
    if H.Spares(e, H.REMAINDER_PLACE) {
      DivisionSpoils(e);
    }
  }

  lemma SampleComplex(e: H.Expr)
    ensures H.IsComplex(Sample(e)) == H.IsComplex(e)
  {
    hide H.Spares;
  }

  lemma SampleSpares(e: H.Expr, j: nat)
    requires !H.IsComplex(e) && j < MAX_REGISTER_ARGUMENTS
    ensures H.Spares(Sample(e), j) == H.Spares(e, j)
  {
    NegatedSpares(7, H.Plus, 8, j);
    NegatedSpares(15, H.Slash, 8, j);
    NegatedSpares(1, H.Star, 8, j);
    assert !H.Spares(NegatedCall(), j);
    assert H.Spares(H.Literal(1), j);
    hide H.Spares, H.IsComplex;
    forall k, l: nat | H.Spares(e, k) && SparesLess(k, l)
      ensures H.Spares(e, l)
    {
      SparesAlso(e, k, l);
    }
    assert SparesLess(H.SECOND_PLACE, j) && SparesLess(H.REMAINDER_PLACE, 0);
    if H.Spares(e, H.REMAINDER_PLACE) && j != H.SECOND_PLACE {
      assert SparesLess(H.REMAINDER_PLACE, j);
    }
    if j == H.REMAINDER_PLACE || j == H.SECOND_PLACE {
    } else {
      assert SparesLess(0, j) && SparesLess(j, 0);
    }
  }

  lemma SamplesShape(es: seq<H.Expr>)
    ensures SameShape(es, Samples(es)) && AllOk(Samples(es))
  {
    hide H.Spares, H.IsComplex, AlikeArguments;
    forall i | 0 <= i < |es|
      ensures AlikeArguments(es[i], Samples(es)[i]) && H.ExprOk(Samples(es)[i])
    {
      SampleAlike(es[i]);
      SampleOk(es[i]);
    }
  }

  lemma SampleOk(e: H.Expr)
    ensures H.ExprOk(Sample(e))
  {
    hide H.Spares, H.IsComplex, Divides;
    NegatedOk(7, H.Plus, 8);
    NegatedOk(15, H.Slash, 8);
    NegatedOk(1, H.Star, 8);
  }

  lemma NegatedOk(a: Word, op: H.MathToken, b: Word)
    ensures H.ExprOk(Negated(a, op, b))
  {
    var t := H.Term(op, H.Literal(b));
    assert [t][0].operand == H.Literal(b) && H.ExprOk(H.Literal(b));
    assert H.ExprOk(H.Math(H.Literal(a), [t]));
  }

  // ----- What they evaluate to -----

  lemma SampleEval(locals: map<nat, Word>, trace: seq<Event>, e: H.Expr)
    ensures H.Eval(Outside(), locals, trace, Sample(e)).Val?
    ensures H.Eval(Outside(), locals, trace, Sample(e)).v == SampleValue(e)
  {
    hide H.Spares, H.IsComplex, H.Eval, H.MathMeaning, H.UnaryMeaning;
    EasyEval(locals, trace);
    NegatedEval(locals, trace, 7, H.Plus, 8);
    NegatedEval(locals, trace, 15, H.Slash, 8);
    NegatedEval(locals, trace, 1, H.Star, 8);
    NegatedCallEval(locals, trace);
  }

  lemma EasyEval(locals: map<nat, Word>, trace: seq<Event>)
    ensures H.Eval(Outside(), locals, trace, H.Literal(1)) == H.Val(1, trace)
    ensures H.Eval(Outside(), locals, trace, H.Math(H.Literal(0), [])) == H.Val(0, trace)
    ensures H.MathMeaning(H.Plus, 7, 8) == Some(15) && H.MathMeaning(H.Slash, 15, 8) == Some(1)
    ensures H.MathMeaning(H.Star, 1, 8) == Some(8)
    ensures H.UnaryMeaning(H.Negate, 15) == -15 && H.UnaryMeaning(H.Negate, 1) == -1
    ensures H.UnaryMeaning(H.Negate, 8) == -8
  {
    var e := H.Math(H.Literal(0), []);
    assert H.EvalMath(Outside(), locals, trace, e, H.Literal(0), []) == H.Val(0, trace);
  }

  lemma NegatedEval(locals: map<nat, Word>, trace: seq<Event>, a: Word, op: H.MathToken, b: Word)
    requires H.MathMeaning(op, a, b).Some?
    ensures H.Eval(Outside(), locals, trace, Negated(a, op, b))
      == H.Val(H.UnaryMeaning(H.Negate, H.MathMeaning(op, a, b).value), trace)
  {
    hide H.MathMeaning, H.UnaryMeaning;
    var w := Outside();
    var t := H.Term(op, H.Literal(b));
    var e := H.Math(H.Literal(a), [t]);
    EvalMathSplit(w, locals, trace, e, H.Literal(a), [t]);
    assert H.SplitPoint([t]) == 0 && [t][..0] == [] && [t][1..] == [] && [t][0] == t;
    assert H.EvalMath(w, locals, trace, e, H.Literal(a), []) == H.Val(a, trace);
    assert H.EvalMath(w, locals, trace, e, t.operand, []) == H.Val(b, trace);
    assert H.Eval(w, locals, trace, e) == H.EvalMath(w, locals, trace, e, H.Literal(a), [t]);
  }

  lemma NegatedCallEval(locals: map<nat, Word>, trace: seq<Event>)
    ensures H.Eval(Outside(), locals, trace, NegatedCall()).Val?
    ensures H.Eval(Outside(), locals, trace, NegatedCall()).v == -5
  {
    var w := Outside();
    var g := H.Call(0, []);
    assert H.EvalArguments(w, locals, trace, g, [], true) == H.Vals([], trace);
    assert H.EvalArguments(w, locals, trace, g, [], false) == H.Vals([], trace);
    assert H.Eval(w, locals, trace, g).Val? && H.Eval(w, locals, trace, g).v == 5;
  }

  lemma {:induction false} SamplesEval(locals: map<nat, Word>, trace: seq<Event>, parent: H.Expr, es: seq<H.Expr>,
                                       complex: bool)
    requires H.AllBelow(Samples(es), parent)
    ensures var r := H.EvalArguments(Outside(), locals, trace, parent, Samples(es), complex);
      r.Vals? && forall i :: 0 <= i < |es| && H.IsComplex(es[i]) == complex ==> r.vs[i] == SampleValue(es[i])
    decreases |es|
  {
    hide H.Spares, H.IsComplex, Sample, SampleValue, H.Eval;
    if es != [] {
      var i := |es| - 1;
      assert Samples(es)[..i] == Samples(es[..i]);
      SampleComplex(es[i]);
      SampleEval(locals, trace, es[i]);
      var x := if H.IsComplex(es[i]) == complex then H.Eval(Outside(), locals, trace, Sample(es[i]))
               else H.Val(0, trace);
      SamplesEval(locals, x.trace, parent, es[..i], complex);
    }
  }

  // ----- What they leave in the argument registers -----

  /** More than any sample's value. */
  ghost predicate Spoilt(e: H.Expr, slots: seq<Word>) {
    && |slots| == MAX_REGISTER_ARGUMENTS
    && forall j :: 0 <= j < MAX_REGISTER_ARGUMENTS && !H.Spares(e, j) ==> slots[j] >= 7
  }

  lemma NegatedShape(a: Word, op: H.MathToken, b: Word, n: nat)
    ensures LowerExpr(Negated(a, op, b), n).code
      == [Load(T1, Imm(a)), Push(T1)] + ([Load(T1, Imm(b)), Push(T1)] + (DoMathOperation(op)
        + ([Pop(T1)] + [Load(T1, T1), Instr(UnaryOpcode(H.Negate), T1, Nothing)])))
    ensures LowerExpr(Negated(a, op, b), n).operand == T1
  {
    hide DoMathOperation, LowerTerms;
    var t := H.Term(op, H.Literal(b));
    OneTerm(op, b, n);
    var math := LowerExpr(H.Math(H.Literal(a), [t]), n);
    assert LowerPushed(H.Literal(a), n) == Piece([Load(T1, Imm(a)), Push(T1)], n);
    assert math.code == [Load(T1, Imm(a)), Push(T1)] + ([Load(T1, Imm(b)), Push(T1)] + DoMathOperation(op)) + [Pop(T1)];
    Regroup5([Load(T1, Imm(a)), Push(T1)], [Load(T1, Imm(b)), Push(T1)], DoMathOperation(op), [Pop(T1)], []);
  }

  lemma OneTerm(op: H.MathToken, b: Word, n: nat)
    ensures LowerTerms([H.Term(op, H.Literal(b))], [], n).code == [Load(T1, Imm(b)), Push(T1)] + DoMathOperation(op)
  {
    hide DoMathOperation, Keep;
    var t := H.Term(op, H.Literal(b));
    var none: seq<H.MathToken> := [];
    assert [t][1..] == [] && [t][0] == t;
    var k := Keep(none, H.Precedence(op));
    assert none[k..] == [] && none[..k] + [op] == [op];
    FlushOne(op);
    assert Flush(none) == [];
    assert LowerTerms([], [op], n) == Piece(Flush([op]), n);
    assert LowerPushed(H.Literal(b), n) == Piece([Load(T1, Imm(b)), Push(T1)], n);
  }

  lemma FlushOne(op: H.MathToken)
    ensures Flush([op]) == DoMathOperation(op)
  {
    hide DoMathOperation;
    assert [op][..0] == [];
    assert Flush([]) == [];
  }

  /** Load, push, load, push, operate: what the operation of a sample leaves. */
  lemma RunNegatedMath(prog: seq<Instr>, w: World, m: Machine, a: Word, op: H.MathToken, b: Word, low: nat, high: nat)
    returns (k: nat)
    requires Ready(prog, m, [Load(T1, Imm(a)), Push(T1)] + ([Load(T1, Imm(b)), Push(T1)] + DoMathOperation(op)))
    requires H.MathMeaning(op, a, b).Some? && Room(m, 3, low, high)
    ensures Inside(prog, w, m, k, low, high)
    ensures Reached(m, Run(prog, w, m, k), m.pc + 8, m.stack + [H.MathMeaning(op, a, b).value], m.trace)
    ensures Run(prog, w, m, k).slots == SlotsAfter(w, m.pc + 4, op, m.slots, a, b)
  {
    hide Step, Run, Inside, At, UniqueLabels, H.MathMeaning, DoMathOperation, SlotsAfter;
    AtSplit(prog, m.pc, [Load(T1, Imm(a)), Push(T1)], [Load(T1, Imm(b)), Push(T1)] + DoMathOperation(op));
    AtSplit(prog, m.pc + 2, [Load(T1, Imm(b)), Push(T1)], DoMathOperation(op));
    k := RunLoadPush(prog, w, m, Imm(a), a, low, high);
    var m1 := Run(prog, w, m, k);
    var j := RunLoadPush(prog, w, m1, Imm(b), b, low, high);
    Sequence(prog, w, m, k, j, low, high);
    k := k + j;
    var m2 := Run(prog, w, m, k);
    j := RunMath(prog, w, m2, op, m.stack, a, b, low, high);
    Sequence(prog, w, m, k, j, low, high);
    k := k + j;
  }

  lemma RunNegated(prog: seq<Instr>, w: World, m: Machine, a: Word, op: H.MathToken, b: Word, n: nat, low: nat,
                   high: nat)
    returns (k: nat)
    requires Ready(prog, m, LowerExpr(Negated(a, op, b), n).code)
    requires H.MathMeaning(op, a, b).Some? && Room(m, 3, low, high)
    ensures Inside(prog, w, m, k, low, high)
    ensures var m' := Run(prog, w, m, k);
      && Reached(m, m', m.pc + |LowerExpr(Negated(a, op, b), n).code|, m.stack, m.trace)
      && m'.t1 == H.UnaryMeaning(H.Negate, H.MathMeaning(op, a, b).value)
      && m'.slots == SlotsAfter(w, m.pc + 4, op, m.slots, a, b)
  {
    hide Step, Run, Inside, At, UniqueLabels, H.MathMeaning, H.UnaryMeaning, DoMathOperation, SlotsAfter, LowerExpr;
    NegatedShape(a, op, b, n);
    MathLength(op);
    var one, two := [Load(T1, Imm(a)), Push(T1)], [Load(T1, Imm(b)), Push(T1)];
    var last := [Load(T1, T1), Instr(UnaryOpcode(H.Negate), T1, Nothing)];
    assert one + (two + (DoMathOperation(op) + ([Pop(T1)] + last)))
        == (one + (two + DoMathOperation(op))) + ([Pop(T1)] + last);
    AtSplit(prog, m.pc, one + (two + DoMathOperation(op)), [Pop(T1)] + last);
    AtSplit(prog, m.pc + 8, [Pop(T1)], last);
    k := RunNegatedMath(prog, w, m, a, op, b, low, high);
    var x := H.MathMeaning(op, a, b).value;
    var j := RunPop(prog, w, Run(prog, w, m, k), m.stack, x, low, high);
    Sequence(prog, w, m, k, j, low, high);
    k := k + j;
    j := RunUnary(prog, w, Run(prog, w, m, k), H.Negate, T1, x, low, high);
    Sequence(prog, w, m, k, j, low, high);
    k := k + j;
  }

  lemma NegatedCallShape(n: nat)
    ensures LowerExpr(NegatedCall(), n).code
      == [CallInstr(0, 0)] + [Load(T1, RESULT), Instr(UnaryOpcode(H.Negate), T1, Nothing)]
    ensures LowerExpr(NegatedCall(), n).operand == T1
  {
    assert LowerExpr(H.Call(0, []), n) == Lowered([CallInstr(0, 0)], RESULT, n);
  }

  lemma RunNegatedCall(prog: seq<Instr>, m: Machine, n: nat, low: nat, high: nat) returns (k: nat)
    requires Ready(prog, m, LowerExpr(NegatedCall(), n).code) && Room(m, 0, low, high)
    ensures Inside(prog, Outside(), m, k, low, high)
    ensures var m' := Run(prog, Outside(), m, k);
      && Reached(m, m', m.pc + |LowerExpr(NegatedCall(), n).code|, m.stack, m.trace + [Event(0, [])])
      && m'.t1 == -5 && forall j :: 0 <= j < MAX_REGISTER_ARGUMENTS ==> m'.slots[j] == 9
  {
    hide Step, Run, Inside, At, UniqueLabels, LowerExpr;
    var w := Outside();
    NegatedCallShape(n);
    AtSplit(prog, m.pc, [CallInstr(0, 0)], [Load(T1, RESULT), Instr(UnaryOpcode(H.Negate), T1, Nothing)]);
    assert m.stack == m.stack + [];
    k := RunCall(prog, w, m, m.stack, [], 0, 0, low, high);
    assert Arriving(m.slots, [], 0) == [];
    var j := RunUnary(prog, w, Run(prog, w, m, k), H.Negate, RESULT, 5, low, high);
    Sequence(prog, w, m, k, j, low, high);
    k := k + j;
  }

  /** A sample that does not spare a register puts something large into it. */
  lemma RunSample(prog: seq<Instr>, m: Machine, e: H.Expr, n: nat, low: nat, high: nat) returns (k: nat)
    requires !H.IsComplex(e) && !H.Spares(e, H.SECOND_PLACE)
    requires Ready(prog, m, LowerExpr(Sample(e), n).code) && Room(m, 3, low, high)
    ensures Inside(prog, Outside(), m, k, low, high)
    ensures var x := LowerExpr(Sample(e), n);
      var m' := Run(prog, Outside(), m, k);
      && Evaluated(Outside(), m, m', m.pc + |x.code|, x.operand, H.Eval(Outside(), m.locals, m.trace, Sample(e)))
      && Spoilt(e, m'.slots)
  {
    hide Step, Run, Inside, At, UniqueLabels, LowerExpr, H.Spares, H.IsComplex, Divides;
    var w := Outside();
    if H.Spares(e, H.REMAINDER_PLACE) {
      k := RunNegated(prog, w, m, 7, H.Plus, 8, n, low, high);
      NegatedEval(m.locals, m.trace, 7, H.Plus, 8);
      NegatedShape(7, H.Plus, 8, n);
      SpoiltByMath(e, H.Plus, m.pc + 4, m.slots, 7);
    } else if H.Spares(e, 0) && Divides(e) {
      k := RunNegated(prog, w, m, 15, H.Slash, 8, n, low, high);
      NegatedEval(m.locals, m.trace, 15, H.Slash, 8);
      NegatedShape(15, H.Slash, 8, n);
      SpoiltByMath(e, H.Slash, m.pc + 4, m.slots, 15);
    } else if H.Spares(e, 0) {
      k := RunNegated(prog, w, m, 1, H.Star, 8, n, low, high);
      NegatedEval(m.locals, m.trace, 1, H.Star, 8);
      NegatedShape(1, H.Star, 8, n);
      SpoiltByMath(e, H.Star, m.pc + 4, m.slots, 1);
    } else {
      k := RunNegatedCall(prog, m, n, low, high);
      NegatedCallMeans(m.locals, m.trace);
      NegatedCallShape(n);
    }
  }

  lemma NegatedCallMeans(locals: map<nat, Word>, trace: seq<Event>)
    ensures H.Eval(Outside(), locals, trace, NegatedCall()) == H.Val(-5, trace + [Event(0, [])])
  {
    var w := Outside();
    var g := H.Call(0, []);
    assert H.EvalArguments(w, locals, trace, g, [], true) == H.Vals([], trace);
    assert H.EvalArguments(w, locals, trace, g, [], false) == H.Vals([], trace);
    assert H.Merged([], [], []) == [];
    assert H.Eval(w, locals, trace, g) == H.Val(5, trace + [Event(0, [])]);
  }

  lemma SpoiltByMath(e: H.Expr, op: H.MathToken, pc: nat, slots: seq<Word>, a: Word)
    requires |slots| == MAX_REGISTER_ARGUMENTS && !H.Spares(e, H.SECOND_PLACE)
    requires || (op.Plus? && a == 7 && H.Spares(e, H.REMAINDER_PLACE))
             || (op.Slash? && a == 15 && H.Spares(e, 0))
             || (op.Star? && H.Spares(e, 0))
    ensures Spoilt(e, SlotsAfter(Outside(), pc, op, slots, a, 8))
  {
    hide H.Spares;
    forall j | 0 <= j < MAX_REGISTER_ARGUMENTS && j != H.SECOND_PLACE && (j != H.REMAINDER_PLACE || op.Plus?)
      ensures H.Spares(e, j)
    {
      SparesAlso(e, if op.Plus? then H.REMAINDER_PLACE else 0, j);
    }
  }

  // ----- A call whose arguments do not arrive -----

  /** Argument i does not spare register j, which belongs to another argument and has its value by
      then, and the arguments evaluated after it do. */
  ghost predicate Spoils(es: seq<H.Expr>, i: nat, j: nat) {
    && i < |es| && !H.IsComplex(es[i]) && j < MAX_REGISTER_ARGUMENTS && !H.Spares(es[i], j)
    && j != i && (j < |es| && !H.IsComplex(es[j]) ==> i < j)
    && SparedBelow(es, i, j)
  }

  lemma SamplePrefix(es: seq<H.Expr>)
    requires es != []
    ensures Samples(es)[..|es| - 1] == Samples(es[..|es| - 1]) && Samples(es)[|es| - 1] == Sample(es[|es| - 1])
    ensures H.IsComplex(Sample(es[|es| - 1])) == H.IsComplex(es[|es| - 1])
  {
    hide Sample, H.IsComplex;
    SampleComplex(es[|es| - 1]);
  }

  lemma SpoilsBefore(es: seq<H.Expr>, i: nat, j: nat)
    requires Spoils(es, i, j) && i < |es| - 1
    ensures Spoils(es[..|es| - 1], i, j)
  {
    hide H.Spares, H.IsComplex;
    SparedPrefix(es, i, j);
  }

  /** The samples that spoil nothing leave the register alone. */
  lemma SparedSamples(es: seq<H.Expr>, c: nat, j: nat)
    requires c <= |es| && SparedBelow(es, c, j) && j < MAX_REGISTER_ARGUMENTS
    ensures SparedBelow(Samples(es), c, j)
  {
    hide H.Spares, H.IsComplex, Sample;
    forall i | 0 <= i < c && !H.IsComplex(Samples(es)[i])
      ensures H.Spares(Samples(es)[i], j)
    {
      SampleComplex(es[i]);
      SampleSpares(es[i], j);
    }
  }

  /** The spoiling argument itself, then the rest. */
  lemma SpoiltAndPassed(es: seq<H.Expr>, j: nat, vs: seq<Word>, slots: seq<Word>, slots': seq<Word>)
    requires es != [] && Spoils(es, |es| - 1, j) && |vs| == |es| - 1
    requires |slots| == |slots'| == MAX_REGISTER_ARGUMENTS
    requires Placed(Samples(es)[..|es| - 1], vs, slots, slots')
    ensures slots'[j] == slots[j]
  {
    hide H.Spares, H.IsComplex, Sample;
    var i := |es| - 1;
    SamplePrefix(es);
    SparedPrefix(es, i, j);
    var ss := Samples(es[..i]);
    if j < i {
      SampleComplex(es[j]);
    }
    SparedWhole(es, j);
    SparedSamples(es[..i], i, j);
    assert PlacedAt(ss, vs, slots, slots', j);
  }

  lemma SparedWhole(es: seq<H.Expr>, j: nat)
    requires es != [] && SparedBelow(es, |es| - 1, j)
    ensures SparedBelow(es[..|es| - 1], |es| - 1, j)
  {
    hide H.Spares, H.IsComplex;
    assert forall i :: 0 <= i < |es| - 1 ==> es[..|es| - 1][i] == es[i];
  }

  ghost predicate SpoiltOthers(m: Machine, m': Machine, p: nat, es: seq<H.Expr>, r: H.Values, j: nat)
    requires r.Vals? ==> |r.vs| == |es|
  {
    && r.Vals? && j < MAX_REGISTER_ARGUMENTS
    && Reached(m, m', p, m.stack + Picked(es, r.vs, false, MAX_REGISTER_ARGUMENTS), r.trace)
    && m'.slots[j] >= 7
  }

  /** The register is spoilt when the call is made. */
  lemma {:induction false} OthersSpoil(prog: seq<Instr>, m: Machine, parent: H.Expr, es: seq<H.Expr>, total: nat,
                                       n: nat, most: nat, low: nat, high: nat, i: nat, j: nat)
    returns (k: nat)
    requires H.AllBelow(Samples(es), parent) && ArgumentsFit(parent, Samples(es), most) && Spoils(es, i, j)
    requires Room(m, Others(Samples(es)) + most + 3, low, high)
    requires Ready(prog, m, LowerPlainArguments(Samples(es), total, n).code)
    ensures Inside(prog, Outside(), m, k, low, high)
    ensures SpoiltOthers(m, Run(prog, Outside(), m, k), m.pc + |LowerPlainArguments(Samples(es), total, n).code|,
                         Samples(es), H.EvalArguments(Outside(), m.locals, m.trace, parent, Samples(es), false), j)
    decreases |es|
  {
    hide Step, Run, Inside, At, UniqueLabels, H.IsComplex, LowerExpr, H.Eval, OperandOk, Load, StoreArgument, Sample,
      LowerPlainArguments, Picked, Others, H.EvalArguments, Spoils, Samples;
    var last := |es| - 1;
    SpoilsHere(es, i, j);
    SamplePrefix(es);
    if i == last {
      k := SpoilNow(prog, m, parent, es, total, n, most, low, high, j);
    } else {
      SpoilsBefore(es, i, j);
      if H.IsComplex(es[last]) {
        OthersSkip(Samples(es), total, n);
        k := OthersSpoil(prog, m, parent, es[..last], total, n, most, low, high, i, j);
        OtherSkipped(Outside(), m.locals, m.trace, parent, Samples(es), m.slots, m.slots);
      } else {
        k := SpoilLater(prog, m, parent, es, total, n, most, low, high, i, j);
      }
    }
  }

  lemma SpoilsHere(es: seq<H.Expr>, i: nat, j: nat)
    requires Spoils(es, i, j)
    ensures es != [] && i < |es| && j < MAX_REGISTER_ARGUMENTS
    ensures i == |es| - 1 ==> !H.IsComplex(es[i]) && !H.Spares(es[i], j) && !H.Spares(es[i], H.SECOND_PLACE) && j != i
  {
    hide H.IsComplex;
    if i < |es| && H.Spares(es[i], H.SECOND_PLACE) {
      SparesAlso(es[i], H.SECOND_PLACE, j);
    }
  }

  lemma {:induction false} OthersSkip(es: seq<H.Expr>, total: nat, n: nat)
    requires es != [] && H.IsComplex(es[|es| - 1])
    ensures LowerPlainArguments(es, total, n).code == LowerPlainArguments(es[..|es| - 1], total, n).code
    ensures Others(es) == Others(es[..|es| - 1])
  {
    hide H.IsComplex, LowerExpr;
  }

  lemma SpoilNow(prog: seq<Instr>, m: Machine, parent: H.Expr, es: seq<H.Expr>, total: nat, n: nat, most: nat,
                 low: nat, high: nat, j: nat)
    returns (k: nat)
    requires es != [] && Spoils(es, |es| - 1, j)
    requires H.AllBelow(Samples(es), parent) && ArgumentsFit(parent, Samples(es), most)
    requires Room(m, Others(Samples(es)) + most + 3, low, high)
    requires Ready(prog, m, LowerPlainArguments(Samples(es), total, n).code)
    ensures Inside(prog, Outside(), m, k, low, high)
    ensures SpoiltOthers(m, Run(prog, Outside(), m, k), m.pc + |LowerPlainArguments(Samples(es), total, n).code|,
                         Samples(es), H.EvalArguments(Outside(), m.locals, m.trace, parent, Samples(es), false), j)
  {
    hide Step, Run, Inside, At, UniqueLabels, H.IsComplex, LowerExpr, H.Eval, OperandOk, Load, StoreArgument, Sample,
      LowerPlainArguments, Picked, Others, H.EvalArguments, Spoils, Samples, Placed, Read;
    var w := Outside();
    var i := |es| - 1;
    var ss := Samples(es);
    SpoilsHere(es, i, j);
    SamplePrefix(es);
    OtherUnfold(w, m.locals, m.trace, parent, ss, total, n);
    OthersUnfold(ss, seq(i, l => 0), 0, m.stack);
    var x := LowerExpr(ss[i], n);
    AtSplit(prog, m.pc, x.code + [Load(T1, x.operand), StoreArgument(i, total)],
            LowerPlainArguments(ss[..i], total, x.next).code);
    AtSplit(prog, m.pc, x.code, [Load(T1, x.operand), StoreArgument(i, total)]);
    SampleEval(m.locals, m.trace, es[i]);
    var v := H.Eval(w, m.locals, m.trace, ss[i]);
    k := RunSample(prog, m, es[i], n, low, high);
    var l := RunLoadArgument(prog, w, Run(prog, w, m, k), x.operand, v.v, i, total, low, high);
    Sequence(prog, w, m, k, l, low, high);
    k := k + l;
    var m1 := Run(prog, w, m, k);
    l := SimOthers(prog, w, m1, parent, ss[..i], total, x.next, most, low, high);
    Sequence(prog, w, m, k, l, low, high);
    k := k + l;
    SamplesEval(m.locals, v.trace, parent, es[..i], false);
    var before := H.EvalArguments(w, m.locals, v.trace, parent, ss[..i], false);
    OthersUnfold(ss, before.vs, v.v, m.stack);
    SpoiltAndPassed(es, j, before.vs, m1.slots, Run(prog, w, m, k).slots);
  }

  lemma {:induction false} SpoilLater(prog: seq<Instr>, m: Machine, parent: H.Expr, es: seq<H.Expr>, total: nat,
                                      n: nat, most: nat, low: nat, high: nat, i: nat, j: nat)
    returns (k: nat)
    requires es != [] && !H.IsComplex(es[|es| - 1]) && Spoils(es[..|es| - 1], i, j)
    requires H.AllBelow(Samples(es), parent) && ArgumentsFit(parent, Samples(es), most)
    requires Room(m, Others(Samples(es)) + most + 3, low, high)
    requires Ready(prog, m, LowerPlainArguments(Samples(es), total, n).code)
    ensures Inside(prog, Outside(), m, k, low, high)
    ensures SpoiltOthers(m, Run(prog, Outside(), m, k), m.pc + |LowerPlainArguments(Samples(es), total, n).code|,
                         Samples(es), H.EvalArguments(Outside(), m.locals, m.trace, parent, Samples(es), false), j)
    decreases |es|, 0
  {
    hide Step, Run, Inside, At, UniqueLabels, H.IsComplex, LowerExpr, H.Eval, H.ExprOk, PushedSlots, Load,
      StoreArgument, Sample, LowerPlainArguments, Picked, Others, H.EvalArguments, Spoils, Samples, H.Spares;
    var w := Outside();
    var last := |es| - 1;
    var ss := Samples(es);
    SamplePrefix(es);
    assert OperandOk(parent, ss[last], most);
    OtherUnfold(w, m.locals, m.trace, parent, ss, total, n);
    OthersUnfold(ss, seq(last, l => 0), 0, m.stack);
    var x := LowerExpr(ss[last], n);
    AtSplit(prog, m.pc, x.code + [Load(T1, x.operand), StoreArgument(last, total)],
            LowerPlainArguments(ss[..last], total, x.next).code);
    SampleEval(m.locals, m.trace, es[last]);
    var v := H.Eval(w, m.locals, m.trace, ss[last]);
    k := SimOther(prog, w, m, ss[last], last, total, n, low, high);
    var m1 := Run(prog, w, m, k);
    var l := OthersSpoil(prog, m1, parent, es[..last], total, x.next, most, low, high, i, j);
    Sequence(prog, w, m, k, l, low, high);
    k := k + l;
    var before := H.EvalArguments(w, m.locals, v.trace, parent, ss[..last], false);
    OthersUnfold(ss, before.vs, v.v, m.stack);
  }

  /** The code of the call by itself. */
  function CallCode(callee: nat, es: seq<H.Expr>): seq<Instr> {
    LowerExpr(H.Call(callee, es), 0).code
  }

  ghost predicate ArrivesFrom(w: World, m: Machine, callee: nat, es: seq<H.Expr>) {
    var e := H.Call(callee, es);
    var code := CallCode(callee, es);
    exists k: nat :: Evaluated(w, m, Run(code, w, m, k), |code|, RESULT, H.Eval(w, m.locals, m.trace, e))
  }

  ghost predicate AtStart(m: Machine) {
    m.Valid() && m.pc == 0 && m.status.Running?
  }

  /** In every world and from every state the call is made with the values of its arguments. */
  ghost predicate Arrives(callee: nat, es: seq<H.Expr>) {
    forall w: World, m: Machine :: AtStart(m) ==> ArrivesFrom(w, m, callee, es)
  }

  lemma CallCodeReady(m: Machine, callee: nat, es: seq<H.Expr>)
    requires AtStart(m)
    ensures Ready(CallCode(callee, es), m, CallCode(callee, es))
  {
    hide LowerExpr;
    Labels.ExprLabels(H.Call(callee, es), 0);
    assert CallCode(callee, es)[0..|CallCode(callee, es)|] == CallCode(callee, es);
  }

  lemma OkArrives(callee: nat, es: seq<H.Expr>)
    requires H.ArgumentsOk(es) && AllOk(es)
    ensures Arrives(callee, es)
  {
    hide H.ArgumentsOk, H.ExprOk, Evaluated, Run, LowerExpr, Slots, AtStart, H.Eval;
    var e := H.Call(callee, es);
    var code := CallCode(callee, es);
    assert H.ExprOk(e) by { CallOk(callee, es); }
    forall w: World, m: Machine | AtStart(m)
      ensures ArrivesFrom(w, m, callee, es)
    {
      CallCodeReady(m, callee, es);
      StartsAtZero(m);
      var k := SimExpr(code, w, m, e, 0, |m.stack|, |m.stack| + Slots(e));
      CallShape(callee, es, 0);
      assert Evaluated(w, m, Run(code, w, m, k), |code|, RESULT, H.Eval(w, m.locals, m.trace, e));
    }
  }

  lemma StartsAtZero(m: Machine)
    requires AtStart(m)
    ensures m.pc == 0
  {
  }

  lemma CallOk(callee: nat, es: seq<H.Expr>)
    requires H.ArgumentsOk(es) && AllOk(es)
    ensures H.ExprOk(H.Call(callee, es))
  {
    hide H.ArgumentsOk;
  }

  /** The call has been made with other values. */
  ghost predicate MadeWrongly(w: World, m: Machine, m': Machine, p: nat, e: H.Expr) {
    && m'.status.Running? && m'.pc == p && H.Eval(w, m.locals, m.trace, e).Val?
    && m'.trace != H.Eval(w, m.locals, m.trace, e).trace
  }

  lemma WrongNeverArrives(w: World, m: Machine, callee: nat, es: seq<H.Expr>, k: nat)
    requires var code := CallCode(callee, es);
      MadeWrongly(w, m, Run(code, w, m, k), |code|, H.Call(callee, es))
    ensures !ArrivesFrom(w, m, callee, es)
  {
    hide Run, Step, LowerExpr, H.Eval;
    var code := CallCode(callee, es);
    forall l: nat | Run(code, w, m, l).status.Running? && Run(code, w, m, l).pc == |code|
      ensures l == k
    {
      EndsOnce(code, w, m, k, l);
    }
  }

  /** A program is at its end at one moment only. */
  lemma EndsOnce(code: seq<Instr>, w: World, m: Machine, k: nat, l: nat)
    requires Run(code, w, m, k).status.Running? && Run(code, w, m, k).pc == |code|
    requires Run(code, w, m, l).status.Running? && Run(code, w, m, l).pc == |code|
    ensures k == l
  {
    hide Run;
    EndsNoLater(code, w, m, k, l);
    EndsNoLater(code, w, m, l, k);
  }

  lemma EndsNoLater(code: seq<Instr>, w: World, m: Machine, k: nat, l: nat)
    requires Run(code, w, m, k).status.Running? && Run(code, w, m, k).pc == |code|
    requires Run(code, w, m, l).status.Running?
    ensures l <= k
  {
    hide Run;
    if k < l {
      RunSplit(code, w, m, k, l - k);
      EndStops(code, w, Run(code, w, m, k), l - k);
    }
  }

  lemma EndStops(code: seq<Instr>, w: World, m: Machine, k: nat)
    requires m.status.Running? && m.pc == |code| && k > 0
    ensures Run(code, w, m, k).status == Stuck
  {
    HaltedStays(code, w, m.(status := Stuck), k - 1);
  }

  /** What a call with samples for its arguments means. */
  lemma SampleCallMeans(callee: nat, es: seq<H.Expr>, locals: map<nat, Word>, trace: seq<Event>)
    ensures var e := H.Call(callee, Samples(es));
      H.AllBelow(Samples(es), e)
    ensures var e := H.Call(callee, Samples(es));
      var first := H.EvalArguments(Outside(), locals, trace, e, Samples(es), true);
      var second := H.EvalArguments(Outside(), locals, first.trace, e, Samples(es), false);
      && first.Vals? && second.Vals?
      && (forall i :: 0 <= i < |es| ==> H.Merged(Samples(es), first.vs, second.vs)[i] == SampleValue(es[i]))
      && H.Eval(Outside(), locals, trace, e).Val?
      && H.Eval(Outside(), locals, trace, e).trace
           == second.trace + [Event(callee, H.Merged(Samples(es), first.vs, second.vs))]
  {
    hide H.EvalArguments, SampleValue, Sample, H.IsComplex;
    var e := H.Call(callee, Samples(es));
    var first := H.EvalArguments(Outside(), locals, trace, e, Samples(es), true);
    SamplesEval(locals, trace, e, es, true);
    SamplesEval(locals, first.trace, e, es, false);
    forall i | 0 <= i < |es|
      ensures H.IsComplex(Samples(es)[i]) == H.IsComplex(es[i])
    {
      SampleComplex(es[i]);
    }
  }

  /** The four parts of a call with a spoilt register, run one after the other. */
  lemma SpoiltCall(m: Machine, callee: nat, es: seq<H.Expr>, i: nat, j: nat) returns (k: nat)
    requires AtStart(m) && Spoils(es, i, j) && j < |es|
    ensures var ss := Samples(es);
      MadeWrongly(Outside(), m, Run(CallCode(callee, ss), Outside(), m, k), |CallCode(callee, ss)|,
                  H.Call(callee, ss))
  {
    hide Step, Run, Inside, At, UniqueLabels, H.IsComplex, LowerExpr, LowerComplexArguments, StoreComplexArguments,
      LowerPlainArguments, CallInstr, ArgumentsFit, H.AllBelow, Picked, H.EvalArguments, ArgumentSlots, ComplexPlaced,
      Samples, Spoils, H.Eval, SampleValue, Arriving, AtStart, Others, H.Merged;
    var w := Outside();
    var ss := Samples(es);
    var e := H.Call(callee, ss);
    var code := CallCode(callee, ss);
    SamplesShape(es);
    CallFits(e);
    CallShape(callee, ss, 0);
    CallCodeReady(m, callee, ss);
    StartsAtZero(m);
    SampleCallMeans(callee, es, m.locals, m.trace);
    var most, low := ArgumentSlots(ss), |m.stack|;
    var high := |m.stack| + |ss| + most + 3;
    ArgumentSlotsBound(ss);
    var a := LowerComplexArguments(ss, 0);
    var plain := LowerPlainArguments(ss, |ss|, a.next);
    var store := StoreComplexArguments(ss, |ss|);
    AtSplit(code, 0, a.code, store + (plain.code + [CallInstr(callee, |ss|)]));
    AtSplit(code, |a.code|, store, plain.code + [CallInstr(callee, |ss|)]);
    AtSplit(code, |a.code| + |store|, plain.code, [CallInstr(callee, |ss|)]);
    k := SimComplexArguments(code, w, m, e, ss, 0, most, low, high);
    var first := H.EvalArguments(w, m.locals, m.trace, e, ss, true);
    var m1 := Run(code, w, m, k);
    PickedCount(ss, first.vs, 0);
    PickedCount(ss, first.vs, MAX_REGISTER_ARGUMENTS);
    var l := SimStoreComplex(code, w, m1, m.stack, ss, first.vs, |ss|, low, high);
    Sequence(code, w, m, k, l, low, high);
    k := k + l;
    var m2 := Run(code, w, m, k);
    l := OthersSpoil(code, m2, e, es, |ss|, a.next, most, low, high, i, j);
    Sequence(code, w, m, k, l, low, high);
    k := k + l;
    var m3 := Run(code, w, m, k);
    var second := H.EvalArguments(w, m.locals, first.trace, e, ss, false);
    var pushed := AllPushed(ss, first.vs, second.vs);
    AllPushedCount(ss, first.vs, second.vs);
    StackRegroup(m.stack, Picked(ss, first.vs, true, MAX_REGISTER_ARGUMENTS),
                 Picked(ss, second.vs, false, MAX_REGISTER_ARGUMENTS));
    InsideEnd(code, w, m, k, low, high);
    l := RunCall(code, w, m3, m.stack, pushed, callee, |ss|, low, high);
    Sequence(code, w, m, k, l, low, high);
    k := k + l;
    SpoiltArrives(m3.slots, pushed, |ss|, j);
    SmallValue(es[j]);
    OtherTrace(second.trace, callee, Arriving(m3.slots, pushed, |ss|), H.Merged(ss, first.vs, second.vs), j);
  }

  lemma SpoiltArrives(slots: seq<Word>, pushed: seq<Word>, total: nat, j: nat)
    requires |slots| == MAX_REGISTER_ARGUMENTS && |pushed| == OnStackCount(total)
    requires j < MAX_REGISTER_ARGUMENTS && j < total
    ensures Arriving(slots, pushed, total)[j] == slots[j]
  {
  }

  lemma SmallValue(e: H.Expr)
    ensures SampleValue(e) <= 1 && (SampleValue(e) == 0 <==> H.IsComplex(e))
  {
    hide H.IsComplex, H.Spares;
  }

  lemma OtherTrace(trace: seq<Event>, callee: nat, a: seq<Word>, b: seq<Word>, j: nat)
    requires j < |a| && j < |b| && a[j] != b[j]
    ensures trace + [Event(callee, a)] != trace + [Event(callee, b)]
  {
    assert (trace + [Event(callee, a)])[|trace|] == Event(callee, a);
    assert (trace + [Event(callee, b)])[|trace|] == Event(callee, b);
  }

  // ----- Stack arguments out of order -----

  /** All of them 0, or none. */
  predicate AllZero(p: seq<Word>, zero: bool) {
    forall i :: 0 <= i < |p| ==> (p[i] == 0) == zero
  }

  lemma AllZeroBoth(a: seq<Word>, b: seq<Word>, zero: bool)
    requires AllZero(a, zero) && AllZero(b, zero)
    ensures AllZero(a + b, zero)
  {
  }

  lemma {:induction false} PickedSamples(es: seq<H.Expr>, vs: seq<Word>, complex: bool, from: nat)
    requires |vs| == |es|
    requires forall i :: 0 <= i < |es| && H.IsComplex(es[i]) == complex ==> vs[i] == SampleValue(es[i])
    ensures AllZero(Picked(Samples(es), vs, complex, from), complex)
    decreases |es|
  {
    hide H.IsComplex, SampleValue, Sample, Samples;
    if es != [] {
      var last := |es| - 1;
      SamplePrefix(es);
      SmallValue(es[last]);
      PickedSamples(es[..last], vs[..last], complex, from);
      AllZeroBoth(PickedLast(Samples(es), vs, complex, from), Picked(Samples(es[..last]), vs[..last], complex, from),
                  complex);
    }
  }

  /** Among the samples, complex stack arguments are 0 and end up behind all others. */
  lemma OutOfOrder(es: seq<H.Expr>, first: seq<Word>, second: seq<Word>, slots: seq<Word>, i: nat, j: nat)
    returns (l: nat)
    requires |first| == |second| == |es| && |slots| == MAX_REGISTER_ARGUMENTS
    requires forall k :: 0 <= k < |es| ==> H.Merged(Samples(es), first, second)[k] == SampleValue(es[k])
    requires forall k :: 0 <= k < |es| && H.IsComplex(es[k]) ==> first[k] == SampleValue(es[k])
    requires forall k :: 0 <= k < |es| && !H.IsComplex(es[k]) ==> second[k] == SampleValue(es[k])
    requires MAX_REGISTER_ARGUMENTS <= i < j < |es| && H.IsComplex(es[i]) && !H.IsComplex(es[j])
    ensures |AllPushed(Samples(es), first, second)| == OnStackCount(|es|)
    ensures l < |es| && Arriving(slots, AllPushed(Samples(es), first, second), |es|)[l]
      != H.Merged(Samples(es), first, second)[l]
  {
    hide H.IsComplex, SampleValue, Sample, Samples, H.Merged, Picked;
    AllPushedCount(Samples(es), first, second);
    PickedSamples(es, first, true, MAX_REGISTER_ARGUMENTS);
    PickedSamples(es, second, false, MAX_REGISTER_ARGUMENTS);
    SmallValue(es[i]);
    SmallValue(es[j]);
    var a := Picked(Samples(es), first, true, MAX_REGISTER_ARGUMENTS);
    var b := Picked(Samples(es), second, false, MAX_REGISTER_ARGUMENTS);
    assert AllPushed(Samples(es), first, second) == a + b;
    l := if i - MAX_REGISTER_ARGUMENTS < |b| then i else j;
    ArrivingAt(slots, a, b, |es|, i);
    ArrivingAt(slots, a, b, |es|, j);
  }

  /** What was pushed last comes first. */
  lemma ArrivingAt(slots: seq<Word>, a: seq<Word>, b: seq<Word>, total: nat, i: nat)
    requires |slots| == MAX_REGISTER_ARGUMENTS && |a + b| == OnStackCount(total)
    requires MAX_REGISTER_ARGUMENTS <= i < total && AllZero(a, true) && AllZero(b, false)
    ensures Arriving(slots, a + b, total)[i] == 0 <==> i - MAX_REGISTER_ARGUMENTS >= |b|
  {
    var r := i - MAX_REGISTER_ARGUMENTS;
    assert Arriving(slots, a + b, total)[i] == (a + b)[|a + b| - 1 - r];
  }

  /** A call with a stack argument behind a complex one. */
  lemma DisorderedCall(m: Machine, callee: nat, es: seq<H.Expr>, i: nat, j: nat) returns (k: nat)
    requires AtStart(m)
    requires MAX_REGISTER_ARGUMENTS <= i < j < |es| && H.IsComplex(es[i]) && !H.IsComplex(es[j])
    ensures var ss := Samples(es);
      MadeWrongly(Outside(), m, Run(CallCode(callee, ss), Outside(), m, k), |CallCode(callee, ss)|,
                  H.Call(callee, ss))
  {
    hide Step, Run, Inside, At, UniqueLabels, H.IsComplex, LowerExpr, H.AllBelow, H.EvalArguments, Samples, H.Eval,
      SampleValue, Arriving, AtStart, H.Merged, Slots, ComplexPlaced, Placed, AllPushed;
    var w := Outside();
    var ss := Samples(es);
    var e := H.Call(callee, ss);
    SamplesShape(es);
    CallCodeReady(m, callee, ss);
    StartsAtZero(m);
    SampleCallMeans(callee, es, m.locals, m.trace);
    var k', slots, slots' := SimCallMade(CallCode(callee, ss), w, m, e, 0, |m.stack|, |m.stack| + Slots(e));
    k := k';
    var first := H.EvalArguments(w, m.locals, m.trace, e, ss, true);
    var second := H.EvalArguments(w, m.locals, first.trace, e, ss, false);
    SamplesEval(m.locals, m.trace, e, es, true);
    SamplesEval(m.locals, first.trace, e, es, false);
    var l := OutOfOrder(es, first.vs, second.vs, slots', i, j);
    OtherTrace(second.trace, callee, Arriving(slots', AllPushed(ss, first.vs, second.vs), |es|),
               H.Merged(ss, first.vs, second.vs), l);
  }

  // ----- The exact condition -----

  /** The last argument evaluated that spoils register j. */
  lemma {:induction false} LastSpoiler(es: seq<H.Expr>, i: nat, j: nat) returns (l: nat)
    requires i < |es| && !H.IsComplex(es[i]) && j < |es| && H.Filled(es, j, i) && !H.Spares(es[i], j)
    ensures Spoils(es, l, j)
    decreases i
  {
    hide H.IsComplex, H.Spares;
    if SparedBelow(es, i, j) {
      l := i;
    } else {
      var h :| 0 <= h < i && !H.IsComplex(es[h]) && !H.Spares(es[h], j);
      l := LastSpoiler(es, h, j);
    }
  }

  lemma NotOkFails(callee: nat, es: seq<H.Expr>)
    requires !H.ArgumentsOk(es)
    ensures !Arrives(callee, Samples(es))
  {
    hide H.IsComplex, H.Spares, H.Filled, ArrivesFrom, Spoils, MadeWrongly;
    var m := Idle();
    assert AtStart(m);
    var k: nat;
    if i, j :| 0 <= i < |es| && !H.IsComplex(es[i]) && 0 <= j < |es| && H.Filled(es, j, i) && !H.Spares(es[i], j) {
      var l := LastSpoiler(es, i, j);
      k := SpoiltCall(m, callee, es, l, j);
    } else {
      var i, j :| H.REGISTER_ARGUMENTS <= i < j < |es| && H.IsComplex(es[i]) && !H.IsComplex(es[j]);
      k := DisorderedCall(m, callee, es, i, j);
    }
    WrongNeverArrives(Outside(), m, callee, Samples(es), k);
  }

  /** Every call of the shape is made with the values of its arguments, in every world and from every
      state, if and only if each argument that is not complex spares the argument registers filled
      before it, and complex stack arguments come last. */
  lemma ArgumentsSurvive(callee: nat, es: seq<H.Expr>)
    ensures H.ArgumentsOk(es) <==>
      forall es': seq<H.Expr> :: SameShape(es, es') && AllOk(es') ==> Arrives(callee, es')
  {
    hide H.ArgumentsOk, Arrives, AllOk, SameShape;
    if H.ArgumentsOk(es) {
      forall es': seq<H.Expr> | SameShape(es, es') && AllOk(es')
        ensures Arrives(callee, es')
      {
        ShapeDecides(es, es');
        OkArrives(callee, es');
      }
    } else {
      NotOkFails(callee, es);
      SamplesShape(es);
    }
  }
}
