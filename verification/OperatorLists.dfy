/** What a flat list of operators means, by the tokens alone: products bind tighter than sums, sums
    tighter than shifts and bitwise operators, and operators of one level group to the left. */
module OperatorLists {
  import opened Words
  import opened Environment
  import opened Lir
  import opened Lowering
  import opened Fragments
  import opened ExprSim
  import Labels
  import H = Hir

  const LEVELS: nat := 3

  /** The levels of the operators, the loosest first. */
  predicate AtLevel(op: H.MathToken, level: nat) {
    match level
    case 0 => op == H.Shl || op == H.Shr || op == H.And || op == H.Or || op == H.Xor
    case 1 => op == H.Plus || op == H.Minus
    case _ => level == 2 && (op == H.Star || op == H.Slash || op == H.Percent)
  }

  /** The last operator of a level, or -1. */
  function Last(rest: seq<H.Term>, level: nat): (k: int)
    ensures -1 <= k < |rest|
    ensures k >= 0 ==> AtLevel(rest[k].op, level)
    ensures forall i :: k < i < |rest| ==> !AtLevel(rest[i].op, level)
  {
    if rest == [] then -1
    else if AtLevel(rest[|rest| - 1].op, level) then |rest| - 1
    else Last(rest[..|rest| - 1], level)
  }

  /** The value of a list as a grammar with a rule for each level reads it: a list of one level is a
      shorter list of that level, an operator, and a list of the next level; or just the latter. */
  ghost function ReadList(w: World, locals: map<nat, Word>, trace: seq<Event>, parent: H.Expr, level: nat,
                      first: H.Expr, rest: seq<H.Term>): H.Value
    requires first < parent && H.TermsBelow(rest, parent) && level <= LEVELS
    decreases |rest|, LEVELS - level
  {
    if level == LEVELS then H.Eval(w, locals, trace, first)
    else
      var k := Last(rest, level);
      if k < 0 then ReadList(w, locals, trace, parent, level + 1, first, rest)
      else
        var l := ReadList(w, locals, trace, parent, level, first, rest[..k]);
        if l.Fault? then l
        else
          var r := ReadList(w, locals, l.trace, parent, level + 1, rest[k].operand, rest[k + 1..]);
          if r.Fault? then r
          else
            var x := H.MathMeaning(rest[k].op, l.v, r.v);
            if x.None? then H.Fault(r.trace) else H.Val(x.value, r.trace)
  }

  lemma LevelIsPrecedence(op: H.MathToken, level: nat)
    ensures AtLevel(op, level) <==> H.Precedence(op) == level
  {
  }

  /** The tree is split at the last operator of the loosest level there is. */
  lemma SplitsAtLast(rest: seq<H.Term>, level: nat)
    requires rest != [] && Last(rest, level) >= 0
    requires forall i :: 0 <= i < |rest| ==> H.Precedence(rest[i].op) >= level
    ensures H.SplitPoint(rest) == Last(rest, level)
  {
    hide H.Precedence, AtLevel, Last;
    var k := Last(rest, level);
    forall i | 0 <= i < |rest|
      ensures AtLevel(rest[i].op, level) <==> H.Precedence(rest[i].op) == level
    {
      LevelIsPrecedence(rest[i].op, level);
    }
    assert H.Precedence(rest[k].op) == level;
    assert H.SplitPoint(rest) >= k;
  }

  lemma LevelBound(op: H.MathToken)
    ensures H.Precedence(op) < LEVELS
  {
  }

  lemma {:induction false} TreeIsRead(w: World, locals: map<nat, Word>, trace: seq<Event>, parent: H.Expr, level: nat,
                                      first: H.Expr, rest: seq<H.Term>)
    requires first < parent && H.TermsBelow(rest, parent) && level <= LEVELS
    requires forall i :: 0 <= i < |rest| ==> H.Precedence(rest[i].op) >= level
    ensures H.EvalMath(w, locals, trace, parent, first, rest) == ReadList(w, locals, trace, parent, level, first, rest)
    decreases |rest|, LEVELS - level
  {
    hide H.Eval, H.MathMeaning, Last, AtLevel, H.Precedence, H.SplitPoint, ReadList, H.EvalMath;
    if level == LEVELS {
      if rest != [] {
        LevelBound(rest[0].op);
      }
      NoOperator(w, locals, trace, parent, first);
    } else {
      var k := Last(rest, level);
      if k < 0 {
        forall i | 0 <= i < |rest|
          ensures H.Precedence(rest[i].op) >= level + 1
        {
          LevelIsPrecedence(rest[i].op, level);
        }
        TreeIsRead(w, locals, trace, parent, level + 1, first, rest);
        ReadDown(w, locals, trace, parent, level, first, rest);
      } else {
        SplitsAtLast(rest, level);
        PartsBelow(rest, k, parent);
        TreeIsRead(w, locals, trace, parent, level, first, rest[..k]);
        var l := H.EvalMath(w, locals, trace, parent, first, rest[..k]);
        var back := rest[k + 1..];
        forall i | 0 <= i < |back|
          ensures H.Precedence(back[i].op) >= level + 1
        {
          assert back[i] == rest[k + 1 + i];
          LevelIsPrecedence(rest[k + 1 + i].op, level);
        }
        TreeIsRead(w, locals, l.trace, parent, level + 1, rest[k].operand, back);
        SameStep(w, locals, trace, parent, level, first, rest, k);
      }
    }
  }

  lemma NoOperator(w: World, locals: map<nat, Word>, trace: seq<Event>, parent: H.Expr, first: H.Expr)
    requires first < parent
    ensures H.EvalMath(w, locals, trace, parent, first, []) == ReadList(w, locals, trace, parent, LEVELS, first, [])
  {
  }

  lemma ReadDown(w: World, locals: map<nat, Word>, trace: seq<Event>, parent: H.Expr, level: nat,
                 first: H.Expr, rest: seq<H.Term>)
    requires first < parent && H.TermsBelow(rest, parent) && level < LEVELS && Last(rest, level) < 0
    ensures ReadList(w, locals, trace, parent, level, first, rest)
      == ReadList(w, locals, trace, parent, level + 1, first, rest)
  {
  }

  lemma PartsBelow(rest: seq<H.Term>, k: nat, parent: H.Expr)
    requires k < |rest| && H.TermsBelow(rest, parent)
    ensures rest[k].operand < parent && H.TermsBelow(rest[..k], parent) && H.TermsBelow(rest[k + 1..], parent)
  {
  }

  /** Tree and grammar join the same two parts. */
  lemma SameStep(w: World, locals: map<nat, Word>, trace: seq<Event>, parent: H.Expr, level: nat,
                 first: H.Expr, rest: seq<H.Term>, k: nat)
    requires first < parent && H.TermsBelow(rest, parent) && level < LEVELS
    requires k < |rest| && k == Last(rest, level) == H.SplitPoint(rest)
    requires H.TermsBelow(rest[..k], parent) && H.TermsBelow(rest[k + 1..], parent) && rest[k].operand < parent
    requires H.EvalMath(w, locals, trace, parent, first, rest[..k])
      == ReadList(w, locals, trace, parent, level, first, rest[..k])
    requires var l := H.EvalMath(w, locals, trace, parent, first, rest[..k]);
      H.EvalMath(w, locals, l.trace, parent, rest[k].operand, rest[k + 1..])
      == ReadList(w, locals, l.trace, parent, level + 1, rest[k].operand, rest[k + 1..])
    ensures H.EvalMath(w, locals, trace, parent, first, rest)
      == ReadList(w, locals, trace, parent, level, first, rest)
  {
    hide H.Eval, H.MathMeaning, Last, H.SplitPoint;
  }

  /** Every flat list, with operands of any form, means what the grammar reads. */
  lemma ListMeans(w: World, locals: map<nat, Word>, trace: seq<Event>, e: H.Expr)
    requires e.Math?
    ensures H.Eval(w, locals, trace, e) == ReadList(w, locals, trace, e, 0, e.first, e.rest)
  {
    hide H.EvalMath, ReadList;
    TreeIsRead(w, locals, trace, e, 0, e.first, e.rest);
  }

  /** And its emitted code computes that: left operands first, with the same calls, up to a fault. */
  lemma ListComputes(prog: seq<Instr>, w: World, m: Machine, e: H.Expr, n: nat) returns (k: nat)
    requires e.Math? && H.ExprOk(e) && Ready(prog, m, LowerExpr(e, n).code)
    ensures Evaluated(w, m, Run(prog, w, m, k), m.pc + |LowerExpr(e, n).code|, T1,
                      ReadList(w, m.locals, m.trace, e, 0, e.first, e.rest))
  {
    hide Run, Evaluated, ReadList, H.Eval, H.ExprOk;
    ListMeans(w, m.locals, m.trace, e);
    k := SimExpr(prog, w, m, e, n, |m.stack|, |m.stack| + Slots(e));
    ListOperand(e, n);
  }

  lemma ListOperand(e: H.Expr, n: nat)
    requires e.Math?
    ensures LowerExpr(e, n).operand == T1
  {
  }

  // ----- Three operands -----

  /** The second of two operators is performed first. */
  predicate SecondFirst(o1: H.MathToken, o2: H.MathToken) {
    || ((o2 == H.Star || o2 == H.Slash || o2 == H.Percent) && o1 != H.Star && o1 != H.Slash && o1 != H.Percent)
    || ((o2 == H.Plus || o2 == H.Minus)
        && (o1 == H.Shl || o1 == H.Shr || o1 == H.And || o1 == H.Or || o1 == H.Xor))
  }

  function Applied(op: H.MathToken, a: Word, b: Word, trace: seq<Event>): H.Value {
    var x := H.MathMeaning(op, a, b);
    if x.None? then H.Fault(trace) else H.Val(x.value, trace)
  }

  function ThreeValue(a: Word, o1: H.MathToken, b: Word, o2: H.MathToken, c: Word, trace: seq<Event>): H.Value {
    if SecondFirst(o1, o2) then
      var r := Applied(o2, b, c, trace);
      if r.Fault? then r else Applied(o1, a, r.v, trace)
    else
      var l := Applied(o1, a, b, trace);
      if l.Fault? then l else Applied(o2, l.v, c, trace)
  }

  function Three(a: Word, o1: H.MathToken, b: Word, o2: H.MathToken, c: Word): H.Expr {
    H.Math(H.Literal(a), [H.Term(o1, H.Literal(b)), H.Term(o2, H.Literal(c))])
  }

  /** a o1 b o2 c is a o1 (b o2 c) when the second operator is a product and the first is none, or the second
      a sum and the first a shift or bitwise; otherwise it is (a o1 b) o2 c. A fault is met in that order. */
  lemma ThreeOperands(w: World, locals: map<nat, Word>, trace: seq<Event>, a: Word, o1: H.MathToken, b: Word,
                      o2: H.MathToken, c: Word)
    ensures H.Eval(w, locals, trace, Three(a, o1, b, o2, c)) == ThreeValue(a, o1, b, o2, c, trace)
  {
    hide H.MathMeaning;
    var e := Three(a, o1, b, o2, c);
    var rest := e.rest;
    ThreeSplits(o1, o2, rest);
    var x, y: H.Term := rest[0], rest[1];
    assert rest[..0] == [] && rest[..1] == [x] && rest[1..] == [y] && rest[2..] == [];
    var p, q, r := e.first, x.operand, y.operand;
    assert H.EvalMath(w, locals, trace, e, p, []) == H.Val(a, trace);
    assert H.EvalMath(w, locals, trace, e, q, []) == H.Val(b, trace);
    assert H.EvalMath(w, locals, trace, e, r, []) == H.Val(c, trace);
    OneOperator(w, locals, trace, e, p, x, a, b);
    OneOperator(w, locals, trace, e, q, y, b, c);
  }

  lemma ThreeSplits(o1: H.MathToken, o2: H.MathToken, rest: seq<H.Term>)
    requires |rest| == 2 && rest[0].op == o1 && rest[1].op == o2
    ensures H.SplitPoint(rest) == if SecondFirst(o1, o2) then 0 else 1
  {
  }

  lemma OneOperator(w: World, locals: map<nat, Word>, trace: seq<Event>, parent: H.Expr, first: H.Expr, t: H.Term,
                    a: Word, b: Word)
    requires first < parent && t.operand < parent && first == H.Literal(a) && t.operand == H.Literal(b)
    ensures H.EvalMath(w, locals, trace, parent, first, [t]) == Applied(t.op, a, b, trace)
  {
    hide H.MathMeaning, H.SplitPoint;
    assert H.SplitPoint([t]) == 0;
    assert [t][..0] == [] && [t][1..] == [] && H.TermsBelow([t], parent);
    assert H.EvalMath(w, locals, trace, parent, first, []) == H.Val(a, trace);
    assert H.EvalMath(w, locals, trace, parent, [t][0].operand, []) == H.Val(b, trace);
  }

  /** The emitted code gives the same, from every state. */
  lemma ThreeOperandsRun(w: World, m: Machine, a: Word, o1: H.MathToken, b: Word, o2: H.MathToken, c: Word)
    returns (k: nat)
    requires m.Valid() && m.status.Running? && m.pc == 0
    ensures var code := LowerExpr(Three(a, o1, b, o2, c), 0).code;
      Evaluated(w, m, Run(code, w, m, k), |code|, T1, ThreeValue(a, o1, b, o2, c, m.trace))
  {
    hide Run, Evaluated, ReadList, H.Eval, LowerExpr, ThreeValue;
    var e := Three(a, o1, b, o2, c);
    var code := LowerExpr(e, 0).code;
    ThreeOk(a, o1, b, o2, c);
    Labels.ExprLabels(e, 0);
    assert code[0..|code|] == code;
    k := SimExpr(code, w, m, e, 0, |m.stack|, |m.stack| + Slots(e));
    ListOperand(e, 0);
    ThreeOperands(w, m.locals, m.trace, a, o1, b, o2, c);
  }

  lemma ThreeOk(a: Word, o1: H.MathToken, b: Word, o2: H.MathToken, c: Word)
    ensures H.ExprOk(Three(a, o1, b, o2, c))
  {
    var e := Three(a, o1, b, o2, c);
    var x: H.Term := e.rest[0];
    var y: H.Term := e.rest[1];
    var p, q := x.operand, y.operand;
    assert H.ExprOk(p) && H.ExprOk(q) && H.ExprOk(e.first);
    assert forall i :: 0 <= i < |e.rest| ==> H.ExprOk(e.rest[i].operand);
  }
}
