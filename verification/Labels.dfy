/** Lowering defines every label at most once and every jump target exactly once. */
module Labels {
  import opened Words
  import opened Lir
  import opened Lowering
  import opened Runs
  import H = Hir

  predicate IsJump(op: Opcode) {
    op.JMP? || op.JMP_TRUE? || op.JMP_FALSE?
  }

  /** The labels a piece of code defines. */
  ghost function Defined(code: seq<Instr>): set<nat> {
    set i | 0 <= i < |code| && code[i].op.NEW_LABEL? && code[i].src.Label? :: code[i].src.id
  }

  /** The labels its jumps go to. */
  ghost function Targets(code: seq<Instr>): set<nat> {
    set i | 0 <= i < |code| && IsJump(code[i].op) && code[i].dst.Label? :: code[i].dst.id
  }

  ghost predicate WellFormed(code: seq<Instr>) {
    forall i :: 0 <= i < |code| ==>
      (code[i].op.NEW_LABEL? ==> code[i].src.Label?) && (IsJump(code[i].op) ==> code[i].dst.Label?)
  }

  ghost predicate Within(ids: set<nat>, n: nat, next: nat) {
    forall id :: id in ids ==> n <= id < next
  }

  /** Labels of the code are new ones from n up to next, each defined once; every jump goes to one of
      them or to one of the outer labels. */
  ghost predicate Closed(code: seq<Instr>, n: nat, next: nat, outer: set<nat>) {
    && n <= next && WellFormed(code) && UniqueLabels(code)
    && Within(Defined(code), n, next) && Targets(code) <= Defined(code) + outer
  }

  lemma DefinedConcat(a: seq<Instr>, b: seq<Instr>)
    ensures Defined(a + b) == Defined(a) + Defined(b)
  {
    forall id | id in Defined(b)
      ensures id in Defined(a + b)
    {
      var i :| 0 <= i < |b| && b[i].op.NEW_LABEL? && b[i].src.Label? && b[i].src.id == id;
      assert (a + b)[|a| + i] == b[i];
    }
    forall id | id in Defined(a)
      ensures id in Defined(a + b)
    {
      var i :| 0 <= i < |a| && a[i].op.NEW_LABEL? && a[i].src.Label? && a[i].src.id == id;
      assert (a + b)[i] == a[i];
    }
  }

  lemma TargetsConcat(a: seq<Instr>, b: seq<Instr>)
    ensures Targets(a + b) == Targets(a) + Targets(b)
  {
    hide IsJump;
    forall id | id in Targets(b)
      ensures id in Targets(a + b)
    {
      var i :| 0 <= i < |b| && IsJump(b[i].op) && b[i].dst.Label? && b[i].dst.id == id;
      assert (a + b)[|a| + i] == b[i];
    }
    forall id | id in Targets(a)
      ensures id in Targets(a + b)
    {
      var i :| 0 <= i < |a| && IsJump(a[i].op) && a[i].dst.Label? && a[i].dst.id == id;
      assert (a + b)[i] == a[i];
    }
  }

  lemma UniqueConcat(a: seq<Instr>, b: seq<Instr>)
    requires WellFormed(a) && WellFormed(b) && UniqueLabels(a) && UniqueLabels(b) && Defined(a) !! Defined(b)
    ensures WellFormed(a + b) && UniqueLabels(a + b)
  {
    hide IsJump;
    var c := a + b;
    forall i, j | 0 <= i < j < |c| && c[i].op.NEW_LABEL? && c[j].op.NEW_LABEL?
      ensures c[i].src != c[j].src
    {
      if i < |a| <= j {
        assert c[i].src.id in Defined(a);
        assert c[j] == b[j - |a|] && c[j].src.id in Defined(b);
      } else if |a| <= i {
        assert c[i] == b[i - |a|] && c[j] == b[j - |a|];
      }
    }
  }

  /** Pieces whose labels do not meet; one piece may jump into the other. */
  lemma Join2(a: seq<Instr>, b: seq<Instr>, n: nat, next: nat, outer: set<nat>)
    requires n <= next && WellFormed(a) && WellFormed(b) && UniqueLabels(a) && UniqueLabels(b)
    requires Defined(a) !! Defined(b) && Within(Defined(a), n, next) && Within(Defined(b), n, next)
    requires Targets(a) <= Defined(a) + Defined(b) + outer && Targets(b) <= Defined(a) + Defined(b) + outer
    ensures Closed(a + b, n, next, outer)
  {
    hide Defined, Targets, WellFormed, UniqueLabels;
    DefinedConcat(a, b);
    TargetsConcat(a, b);
    UniqueConcat(a, b);
  }

  lemma Adjacent(a: seq<Instr>, b: seq<Instr>, n: nat, mid: nat, next: nat, outer: set<nat>)
    requires Closed(a, n, mid, outer) && Closed(b, mid, next, outer)
    ensures Closed(a + b, n, next, outer)
  {
    hide Defined, Targets, WellFormed, UniqueLabels;
    Join2(a, b, n, next, outer);
  }

  lemma Widen(a: seq<Instr>, n: nat, next: nat, outer: set<nat>, n': nat, next': nat, outer': set<nat>)
    requires Closed(a, n, next, outer) && n' <= n && next <= next' && outer <= outer'
    ensures Closed(a, n', next', outer')
  {
    hide Defined, Targets, WellFormed, UniqueLabels;
  }

  ghost predicate NoLabels(code: seq<Instr>) {
    forall i :: 0 <= i < |code| ==> !code[i].op.NEW_LABEL? && !IsJump(code[i].op)
  }

  lemma StraightIsClosed(code: seq<Instr>, n: nat, next: nat, outer: set<nat>)
    requires NoLabels(code) && n <= next
    ensures Closed(code, n, next, outer)
  {
    assert Defined(code) == {} && Targets(code) == {};
  }

  lemma WithStraight(a: seq<Instr>, b: seq<Instr>, n: nat, next: nat, outer: set<nat>)
    requires Closed(a, n, next, outer) && NoLabels(b)
    ensures Closed(a + b, n, next, outer) && Closed(b + a, n, next, outer)
  {
    hide NoLabels, Closed;
    StraightIsClosed(b, n, n, outer);
    StraightIsClosed(b, next, next, outer);
    ClosedOrder(a, n, next, outer);
    Adjacent(b, a, n, n, next, outer);
    Adjacent(a, b, n, next, next, outer);
  }

  lemma ClosedOrder(a: seq<Instr>, n: nat, next: nat, outer: set<nat>)
    requires Closed(a, n, next, outer)
    ensures n <= next
  {
  }

  // ----- Expressions -----

  lemma {:induction false} ExprLabels(e: H.Expr, n: nat)
    ensures Closed(LowerExpr(e, n).code, n, LowerExpr(e, n).next, {})
    decreases e, 0
  {
    hide Closed, LowerPushed, LowerTerms, LowerComparison, LowerLinks, LowerComplexArguments, LowerPlainArguments,
      StoreComplexArguments, ConditionTail, Join;
    match e
    case Literal(_) => StraightIsClosed([], n, n, {});
    case Variable(_) => StraightIsClosed([], n, n, {});
    case Math(first, rest) =>
      var f := LowerPushed(first, n);
      PushedLabels(first, n);
      TermsLabels(rest, [], f.next);
      Adjacent(f.code, LowerTerms(rest, [], f.next).code, n, f.next, LowerTerms(rest, [], f.next).next, {});
      WithStraight(f.code + LowerTerms(rest, [], f.next).code, [Pop(T1)], n, LowerTerms(rest, [], f.next).next, {});
    case Condition(head, links) =>
      if links == [] {
        ComparisonLabels(head, n + 1);
        Widen(LowerComparison(head, n + 1).code, n + 1, LowerComparison(head, n + 1).next, {}, n, LowerExpr(e,
            n).next, {});
      } else {
        ComparisonLabels(head, n + 2);
        LinksLabels(links, LowerComparison(head, n + 2).next, n, n + 1);
        ChainLabels(head, links, n);
      }
    case Unary(unary, operand) =>
      var x := LowerExpr(operand, n);
      ExprLabels(operand, n);
      WithStraight(x.code, [Load(T1, x.operand), Instr(UnaryOpcode(unary), T1, Nothing)], n, x.next, {});
    case Cast(value) =>
      var x := LowerExpr(value, n);
      ExprLabels(value, n);
      WithStraight(x.code, [Load(T1, x.operand)], n, x.next, {});
    case Call(callee, arguments) =>
      ComplexLabels(arguments, n);
      PlainLabels(arguments, |arguments|, LowerComplexArguments(arguments, n).next);
      CallLabels(callee, arguments, n);
  }

  lemma CallLabels(callee: nat, es: seq<H.Expr>, n: nat)
    requires var a := LowerComplexArguments(es, n);
      var b := LowerPlainArguments(es, |es|, a.next);
      Closed(a.code, n, a.next, {}) && Closed(b.code, a.next, b.next, {})
    ensures var x := LowerExpr(H.Call(callee, es), n); Closed(x.code, n, x.next, {})
  {
    hide Closed, LowerComplexArguments, LowerPlainArguments, StoreComplexArguments;
    var a := LowerComplexArguments(es, n);
    var b := LowerPlainArguments(es, |es|, a.next);
    StoreIsStraight(es, |es|);
    WithStraight(a.code, StoreComplexArguments(es, |es|), n, a.next, {});
    Adjacent(a.code + StoreComplexArguments(es, |es|), b.code, n, a.next, b.next, {});
    WithStraight(a.code + StoreComplexArguments(es, |es|) + b.code, [CallInstr(callee, |es|)], n, b.next, {});
  }

  lemma {:induction false} StoreIsStraight(es: seq<H.Expr>, total: nat)
    ensures NoLabels(StoreComplexArguments(es, total))
    decreases |es|
  {
    hide H.IsComplex;
    if es != [] {
      StoreIsStraight(es[..|es| - 1], total);
    }
  }

  lemma {:induction false} FlushIsStraight(delayed: seq<H.MathToken>)
    ensures NoLabels(Flush(delayed))
    decreases |delayed|
  {
    if delayed != [] {
      FlushIsStraight(delayed[..|delayed| - 1]);
    }
  }

  lemma {:induction false} PushedLabels(e: H.Expr, n: nat)
    ensures Closed(LowerPushed(e, n).code, n, LowerPushed(e, n).next, {})
    decreases e, 1
  {
    hide Closed, LowerExpr;
    ExprLabels(e, n);
    var x := LowerExpr(e, n);
    WithStraight(x.code, [Load(T1, x.operand), Push(T1)], n, x.next, {});
  }

  lemma {:induction false} TermsLabels(rest: seq<H.Term>, delayed: seq<H.MathToken>, n: nat)
    ensures Closed(LowerTerms(rest, delayed, n).code, n, LowerTerms(rest, delayed, n).next, {})
    decreases rest
  {
    hide Closed, LowerPushed, Flush, Keep, H.Precedence;
    if rest == [] {
      FlushIsStraight(delayed);
      StraightIsClosed(Flush(delayed), n, n, {});
    } else {
      var term: H.Term := rest[0];
      var op, operand := term.op, term.operand;
      assert operand < term;
      var k := Keep(delayed, H.Precedence(op));
      var x := LowerPushed(operand, n);
      var more := LowerTerms(rest[1..], delayed[..k] + [op], x.next);
      PushedLabels(operand, n);
      TermsLabels(rest[1..], delayed[..k] + [op], x.next);
      FlushIsStraight(delayed[k..]);
      WithStraight(x.code, Flush(delayed[k..]), n, x.next, {});
      Adjacent(Flush(delayed[k..]) + x.code, more.code, n, x.next, more.next, {});
    }
  }

  lemma {:induction false} ComparisonLabels(c: H.Comparison, n: nat)
    ensures Closed(LowerComparison(c, n).code, n, LowerComparison(c, n).next, {})
    decreases c
  {
    hide Closed, LowerPushed;
    var l := LowerPushed(c.lhs, n);
    var r := LowerPushed(c.rhs, l.next);
    PushedLabels(c.lhs, n);
    PushedLabels(c.rhs, l.next);
    Adjacent(l.code, r.code, n, l.next, r.next, {});
    WithStraight(l.code + r.code, ComparisonTail(c.op), n, r.next, {});
  }

  lemma JoinIsClosed(useAnd: bool, links: seq<H.Link>, trueLabel: nat, falseLabel: nat, n: nat)
    ensures Closed(Join(useAnd, links, trueLabel, falseLabel), n, n, {trueLabel, falseLabel})
  {
    assert Defined(Join(useAnd, links, trueLabel, falseLabel)) == {};
  }

  lemma {:induction false} LinksLabels(links: seq<H.Link>, n: nat, trueLabel: nat, falseLabel: nat)
    ensures var r := LowerLinks(links, n, trueLabel, falseLabel); Closed(r.code, n, r.next, {trueLabel, falseLabel})
    decreases links
  {
    hide Closed, LowerComparison, Join;
    if links == [] {
      StraightIsClosed([], n, n, {trueLabel, falseLabel});
    } else {
      var link: H.Link := links[0];
      var chain, comparison := link.chain, link.comparison;
      assert comparison < link;
      var c := LowerComparison(comparison, n);
      var j := Join(chain.BoolAnd?, links[1..], trueLabel, falseLabel);
      var more := LowerLinks(links[1..], c.next, trueLabel, falseLabel);
      ComparisonLabels(comparison, n);
      LinksLabels(links[1..], c.next, trueLabel, falseLabel);
      Widen(c.code, n, c.next, {}, n, c.next, {trueLabel, falseLabel});
      JoinIsClosed(chain.BoolAnd?, links[1..], trueLabel, falseLabel, c.next);
      Adjacent(c.code, j, n, c.next, c.next, {trueLabel, falseLabel});
      Adjacent(c.code + j, more.code, n, c.next, more.next, {trueLabel, falseLabel});
    }
  }

  lemma TailLabels(trueLabel: nat, falseLabel: nat, doneLabel: nat)
    requires trueLabel != falseLabel && trueLabel != doneLabel && falseLabel != doneLabel
    ensures var t := ConditionTail(trueLabel, falseLabel, doneLabel);
      WellFormed(t) && UniqueLabels(t) && Defined(t) == {trueLabel, falseLabel, doneLabel} && Targets(t) == {doneLabel}
  {
    var t := ConditionTail(trueLabel, falseLabel, doneLabel);
    assert t[1].src.id == trueLabel && t[3].src.id == falseLabel && t[5].src.id == doneLabel;
    assert t[2].dst.id == doneLabel;
  }

  /** A long condition: its three labels are new, and inner code only leaves by two of them. */
  lemma ChainLabels(head: H.Comparison, links: seq<H.Link>, n: nat)
    requires links != []
    requires var c := LowerComparison(head, n + 2);
      var r := LowerLinks(links, c.next, n, n + 1);
      Closed(c.code, n + 2, c.next, {}) && Closed(r.code, c.next, r.next, {n, n + 1})
    ensures var x := LowerExpr(H.Condition(head, links), n); Closed(x.code, n, x.next, {})
  {
    hide Closed, LowerComparison, LowerLinks, Join, ConditionTail;
    var c := LowerComparison(head, n + 2);
    var r := LowerLinks(links, c.next, n, n + 1);
    var outer := {n, n + 1};
    var front := [Load(T1, Imm(0)), Push(T1)] + c.code + Join(false, links, n, n + 1);
    Widen(c.code, n + 2, c.next, {}, n + 2, c.next, outer);
    WithStraight(c.code, [Load(T1, Imm(0)), Push(T1)], n + 2, c.next, outer);
    JoinIsClosed(false, links, n, n + 1, c.next);
    Adjacent([Load(T1, Imm(0)), Push(T1)] + c.code, Join(false, links, n, n + 1), n + 2, c.next, c.next, outer);
    Adjacent(front, r.code, n + 2, c.next, r.next, outer);
    AddTail(front + r.code, n, r.next);
  }

  lemma AddTail(a: seq<Instr>, n: nat, done: nat)
    requires Closed(a, n + 2, done, {n, n + 1})
    ensures Closed(a + ConditionTail(n, n + 1, done), n, done + 1, {})
  {
    hide Defined, Targets, WellFormed, UniqueLabels, ConditionTail;
    TailLabels(n, n + 1, done);
    Join2(a, ConditionTail(n, n + 1, done), n, done + 1, {});
  }

  lemma {:induction false} ComplexLabels(es: seq<H.Expr>, n: nat)
    ensures var a := LowerComplexArguments(es, n); Closed(a.code, n, a.next, {})
    decreases es
  {
    hide Closed, LowerPushed, H.IsComplex;
    if es == [] {
      StraightIsClosed([], n, n, {});
    } else {
      var last := es[|es| - 1];
      if H.IsComplex(last) {
        var x := LowerPushed(last, n);
        var more := LowerComplexArguments(es[..|es| - 1], x.next);
        PushedLabels(last, n);
        ComplexLabels(es[..|es| - 1], x.next);
        Adjacent(x.code, more.code, n, x.next, more.next, {});
      } else {
        ComplexLabels(es[..|es| - 1], n);
      }
    }
  }

  lemma {:induction false} PlainLabels(es: seq<H.Expr>, total: nat, n: nat)
    ensures var a := LowerPlainArguments(es, total, n); Closed(a.code, n, a.next, {})
    decreases es
  {
    hide Closed, LowerExpr, H.IsComplex;
    if es == [] {
      StraightIsClosed([], n, n, {});
    } else {
      var last := es[|es| - 1];
      if H.IsComplex(last) {
        PlainLabels(es[..|es| - 1], total, n);
      } else {
        var x := LowerExpr(last, n);
        var more := LowerPlainArguments(es[..|es| - 1], total, x.next);
        var put := [Load(T1, x.operand), StoreArgument(|es| - 1, total)];
        ExprLabels(last, n);
        PlainLabels(es[..|es| - 1], total, x.next);
        WithStraight(x.code, put, n, x.next, {});
        Adjacent(x.code + put, more.code, n, x.next, more.next, {});
      }
    }
  }

  // ----- Statements -----

  /** The labels a statement may jump to outside its own code. */
  ghost function Outer(inLoop: bool, breakLabel: nat, continueLabel: nat): set<nat> {
    if inLoop then {breakLabel, continueLabel} else {}
  }

  lemma LabelAlone(id: nat)
    ensures WellFormed([NewLabel(id)]) && UniqueLabels([NewLabel(id)])
    ensures Defined([NewLabel(id)]) == {id} && Targets([NewLabel(id)]) == {}
  {
    assert [NewLabel(id)][0].src.id == id;
  }

  lemma JumpAlone(i: Instr, id: nat)
    requires IsJump(i.op) && i.dst == Label(id)
    ensures WellFormed([i]) && UniqueLabels([i]) && Defined([i]) == {} && Targets([i]) == {id}
  {
    assert [i][0].dst.id == id;
  }

  /** A definition in front of code whose labels come later, or behind it. */
  lemma AddLabel(a: seq<Instr>, id: nat, n: nat, next: nat, outer: set<nat>)
    requires Closed(a, n, next, outer + {id}) && id < n
    ensures Closed([NewLabel(id)] + a, id, next, outer) && Closed(a + [NewLabel(id)], id, next, outer)
  {
    hide Defined, Targets, WellFormed, UniqueLabels, NewLabel;
    LabelAlone(id);
    Join2([NewLabel(id)], a, id, next, outer);
    Join2(a, [NewLabel(id)], id, next, outer);
  }

  /** A jump to an outer label. */
  lemma AddJump(a: seq<Instr>, i: Instr, id: nat, n: nat, next: nat, outer: set<nat>)
    requires Closed(a, n, next, outer) && IsJump(i.op) && i.dst == Label(id) && id in outer
    ensures Closed(a + [i], n, next, outer) && Closed([i] + a, n, next, outer)
  {
    hide Defined, Targets, WellFormed, UniqueLabels, IsJump;
    JumpAlone(i, id);
    Join2(a, [i], n, next, outer);
    Join2([i], a, n, next, outer);
  }

  lemma AddLabelInside(a: seq<Instr>, id: nat, n: nat, next: nat, outer: set<nat>)
    requires Closed(a, n, next, outer + {id}) && n <= id < next && id !in Defined(a)
    ensures Closed(a + [NewLabel(id)], n, next, outer)
  {
    hide Defined, Targets, WellFormed, UniqueLabels, NewLabel;
    LabelAlone(id);
    Join2(a, [NewLabel(id)], n, next, outer);
  }

  lemma Misses(a: seq<Instr>, id: nat, n: nat, next: nat, outer: set<nat>)
    requires Closed(a, n, next, outer) && (id < n || next <= id)
    ensures id !in Defined(a)
  {
    hide Defined, Targets, WellFormed, UniqueLabels;
  }

  lemma MissesBoth(a: seq<Instr>, b: seq<Instr>, id: nat)
    requires id !in Defined(a) && id !in Defined(b)
    ensures id !in Defined(a + b)
  {
    hide Defined;
    DefinedConcat(a, b);
  }

  lemma MissesLabel(id: nat, other: nat)
    requires id != other
    ensures id !in Defined([NewLabel(other)])
  {
    LabelAlone(other);
  }

  lemma MissesJump(i: Instr, id: nat)
    requires IsJump(i.op)
    ensures id !in Defined([i])
  {
  }

  function Test(c: H.Expr, n: nat, i: Instr): Piece {
    var x := LowerExpr(c, n);
    Piece(x.code + [Load(T1, x.operand), i], x.next)
  }

  lemma TestLabels(c: H.Expr, n: nat, i: Instr, id: nat, outer: set<nat>)
    requires IsJump(i.op) && i.dst == Label(id) && id in outer
    ensures Closed(Test(c, n, i).code, n, Test(c, n, i).next, outer)
  {
    hide Closed, LowerExpr, IsJump;
    var x := LowerExpr(c, n);
    ExprLabels(c, n);
    Widen(x.code, n, x.next, {}, n, x.next, outer);
    LoadIsStraight(x.operand);
    WithStraight(x.code, [Load(T1, x.operand)], n, x.next, outer);
    AddJump(x.code + [Load(T1, x.operand)], i, id, n, x.next, outer);
    assert x.code + [Load(T1, x.operand), i] == x.code + [Load(T1, x.operand)] + [i];
  }

  lemma LoadIsStraight(o: Operand)
    ensures NoLabels([Load(T1, o)])
  {
  }

  lemma IfLabels(s: H.Stmt, n: nat, breakLabel: nat, continueLabel: nat, outer: set<nat>)
    requires s.If? && s.otherwise == []
    requires var b := LowerBlock(s.body, LowerExpr(s.condition, n + 1).next, breakLabel, continueLabel);
      Closed(b.code, LowerExpr(s.condition, n + 1).next, b.next, outer)
    ensures var p := LowerStmt(s, n, breakLabel, continueLabel); Closed(p.code, n, p.next, outer)
  {
    hide Closed, LowerBlock, LowerExpr, NewLabel;
    var t := Test(s.condition, n + 1, JumpFalse(n));
    var b := LowerBlock(s.body, t.next, breakLabel, continueLabel);
    TestLabels(s.condition, n + 1, JumpFalse(n), n, outer + {n});
    Widen(b.code, t.next, b.next, outer, t.next, b.next, outer + {n});
    Adjacent(t.code, b.code, n + 1, t.next, b.next, outer + {n});
    AddLabel(t.code + b.code, n, n + 1, b.next, outer);
  }

  lemma IfElseLabels(s: H.Stmt, n: nat, breakLabel: nat, continueLabel: nat, outer: set<nat>)
    requires s.If? && s.otherwise != []
    requires var b := LowerBlock(s.body, LowerExpr(s.condition, n + 2).next, breakLabel, continueLabel);
      var o := LowerBlock(s.otherwise, b.next, breakLabel, continueLabel);
      Closed(b.code, LowerExpr(s.condition, n + 2).next, b.next, outer) && Closed(o.code, b.next, o.next, outer)
    ensures var p := LowerStmt(s, n, breakLabel, continueLabel); Closed(p.code, n, p.next, outer)
  {
    hide Closed, LowerBlock, LowerExpr, NewLabel, Defined, Jump;
    var t := Test(s.condition, n + 2, JumpFalse(n));
    var b := LowerBlock(s.body, t.next, breakLabel, continueLabel);
    var o := LowerBlock(s.otherwise, b.next, breakLabel, continueLabel);
    var wide := outer + {n + 1} + {n};
    TestLabels(s.condition, n + 2, JumpFalse(n), n, wide);
    Widen(b.code, t.next, b.next, outer, t.next, b.next, wide);
    Adjacent(t.code, b.code, n + 2, t.next, b.next, wide);
    JumpShape(n + 1);
    var x := t.code + b.code + [Jump(n + 1)];
    AddJump(t.code + b.code, Jump(n + 1), n + 1, n + 2, b.next, wide);
    Misses(x, n + 1, n + 2, b.next, wide);
    AddLabel(x, n, n + 2, b.next, outer + {n + 1});
    MissesLabel(n + 1, n);
    MissesBoth(x, [NewLabel(n)], n + 1);
    ClosedOrder(x, n + 2, b.next, wide);
    Misses(o.code, n + 1, b.next, o.next, outer);
    Widen(o.code, b.next, o.next, outer, b.next, o.next, outer + {n + 1});
    ClosedOrder(o.code, b.next, o.next, outer);
    Adjacent(x + [NewLabel(n)], o.code, n, b.next, o.next, outer + {n + 1});
    MissesBoth(x + [NewLabel(n)], o.code, n + 1);
    AddLabelInside(x + [NewLabel(n)] + o.code, n + 1, n, o.next, outer);
    assert t.code + b.code + [Jump(n + 1), NewLabel(n)] == x + [NewLabel(n)];
  }

  lemma JumpShape(id: nat)
    ensures IsJump(Jump(id).op) && Jump(id).dst == Label(id)
  {
  }

  lemma WhileLabels(s: H.Stmt, n: nat, breakLabel: nat, continueLabel: nat, outer: set<nat>)
    requires s.While? && !s.doFirst
    requires var b := LowerBlock(s.body, LowerExpr(s.condition, n + 3).next, n + 2, n);
      Closed(b.code, LowerExpr(s.condition, n + 3).next, b.next, {n + 2, n})
    ensures var p := LowerStmt(s, n, breakLabel, continueLabel); Closed(p.code, n, p.next, outer)
  {
    hide Closed, LowerBlock, LowerExpr, NewLabel, Defined;
    var i := Instr(JMP, Label(n), T1);
    var t := Test(s.condition, n + 3, JumpFalse(n + 2));
    var b := LowerBlock(s.body, t.next, n + 2, n);
    var wide := {} + {n} + {n + 2};
    TestLabels(s.condition, n + 3, JumpFalse(n + 2), n + 2, wide + {n + 1});
    Misses(t.code, n + 2, n + 3, t.next, wide + {n + 1});
    ClosedOrder(t.code, n + 3, t.next, wide + {n + 1});
    AddLabel(t.code, n + 1, n + 3, t.next, wide);
    MissesLabel(n + 2, n + 1);
    MissesBoth(t.code, [NewLabel(n + 1)], n + 2);
    Misses(b.code, n + 2, t.next, b.next, {n + 2, n});
    Widen(b.code, t.next, b.next, {n + 2, n}, t.next, b.next, wide);
    ClosedOrder(b.code, t.next, b.next, wide);
    var x := t.code + [NewLabel(n + 1)] + b.code;
    Adjacent(t.code + [NewLabel(n + 1)], b.code, n + 1, t.next, b.next, wide);
    MissesBoth(t.code + [NewLabel(n + 1)], b.code, n + 2);
    AddJump(x, i, n, n + 1, b.next, wide);
    MissesJump(i, n + 2);
    MissesBoth(x, [i], n + 2);
    AddLabelInside(x + [i], n + 2, n + 1, b.next, {} + {n});
    AddLabel(x + [i] + [NewLabel(n + 2)], n, n + 1, b.next, {});
    Widen([NewLabel(n)] + (x + [i] + [NewLabel(n + 2)]), n, b.next, {}, n, b.next, outer);
    WhileAssoc([NewLabel(n)], LowerExpr(s.condition, n + 3).code, Load(T1, LowerExpr(s.condition, n + 3).operand),
               JumpFalse(n + 2), NewLabel(n + 1), b.code, i, NewLabel(n + 2));
  }

  lemma WhileAssoc(a: seq<Instr>, c: seq<Instr>, load: Instr, jump: Instr, l1: Instr, b: seq<Instr>, i: Instr,
                   l2: Instr)
    ensures a + c + [load, jump, l1] + b + [i, l2] == a + (c + [load, jump] + [l1] + b + [i] + [l2])
  {
  }

  lemma DoLabels(s: H.Stmt, n: nat, breakLabel: nat, continueLabel: nat, outer: set<nat>)
    requires s.While? && s.doFirst
    requires var b := LowerBlock(s.body, n + 3, n + 2, n); Closed(b.code, n + 3, b.next, {n + 2, n})
    ensures var p := LowerStmt(s, n, breakLabel, continueLabel); Closed(p.code, n, p.next, outer)
  {
    hide Closed, LowerBlock, LowerExpr, NewLabel, Defined;
    var b := LowerBlock(s.body, n + 3, n + 2, n);
    var t := Test(s.condition, b.next, JumpTrue(n + 1));
    var wide := {} + {n + 1} + {n + 2} + {n};
    Misses(b.code, n + 1, n + 3, b.next, {n + 2, n});
    Misses(b.code, n + 2, n + 3, b.next, {n + 2, n});
    ClosedOrder(b.code, n + 3, b.next, {n + 2, n});
    Widen(b.code, n + 3, b.next, {n + 2, n}, n + 3, b.next, wide);
    AddLabel(b.code, n, n + 3, b.next, {} + {n + 1} + {n + 2});
    MissesLabel(n + 1, n);
    MissesLabel(n + 2, n);
    var x := b.code + [NewLabel(n)];
    MissesBoth(b.code, [NewLabel(n)], n + 1);
    MissesBoth(b.code, [NewLabel(n)], n + 2);
    TestLabels(s.condition, b.next, JumpTrue(n + 1), n + 1, {} + {n + 1} + {n + 2});
    ClosedOrder(t.code, b.next, t.next, {} + {n + 1} + {n + 2});
    Misses(t.code, n + 1, b.next, t.next, {} + {n + 1} + {n + 2});
    Misses(t.code, n + 2, b.next, t.next, {} + {n + 1} + {n + 2});
    Adjacent(x, t.code, n, b.next, t.next, {} + {n + 1} + {n + 2});
    MissesBoth(x, t.code, n + 1);
    MissesBoth(x, t.code, n + 2);
    AddLabelInside(x + t.code, n + 2, n, t.next, {} + {n + 1});
    MissesLabel(n + 1, n + 2);
    MissesBoth(x + t.code, [NewLabel(n + 2)], n + 1);
    AddLabelFront(x + t.code + [NewLabel(n + 2)], n + 1, n, t.next, {});
    Widen([NewLabel(n + 1)] + (x + t.code + [NewLabel(n + 2)]), n, t.next, {}, n, t.next, outer);
    DoAssoc([NewLabel(n + 1)], b.code, NewLabel(n), LowerExpr(s.condition, b.next).code,
            Load(T1, LowerExpr(s.condition, b.next).operand), JumpTrue(n + 1), NewLabel(n + 2));
  }

  lemma AddLabelFront(a: seq<Instr>, id: nat, n: nat, next: nat, outer: set<nat>)
    requires Closed(a, n, next, outer + {id}) && n <= id < next && id !in Defined(a)
    ensures Closed([NewLabel(id)] + a, n, next, outer)
  {
    hide Defined, Targets, WellFormed, UniqueLabels, NewLabel;
    LabelAlone(id);
    Join2([NewLabel(id)], a, n, next, outer);
  }

  lemma DoAssoc(a: seq<Instr>, b: seq<Instr>, l: Instr, c: seq<Instr>, load: Instr, jump: Instr, l2: Instr)
    ensures a + b + [l] + c + [load, jump, l2] == a + (b + [l] + (c + [load, jump]) + [l2])
  {
  }

  lemma AddLabelWide(a: seq<Instr>, id: nat, n: nat, next: nat, outer: set<nat>)
    requires Closed(a, n, next, outer) && n <= id < next && id !in Defined(a)
    ensures Closed(a + [NewLabel(id)], n, next, outer) && id in Defined(a + [NewLabel(id)])
  {
    hide Defined, Targets, WellFormed, UniqueLabels, NewLabel;
    LabelAlone(id);
    DefinedConcat(a, [NewLabel(id)]);
    Join2(a, [NewLabel(id)], n, next, outer);
  }

  /** A label that the code defines itself need not be an outer one. */
  lemma Narrow(a: seq<Instr>, id: nat, n: nat, next: nat, outer: set<nat>)
    requires Closed(a, n, next, outer + {id}) && id in Defined(a)
    ensures Closed(a, n, next, outer)
  {
    hide Defined, Targets, WellFormed, UniqueLabels;
  }

  lemma StaysDefined(a: seq<Instr>, b: seq<Instr>, id: nat)
    requires id in Defined(a)
    ensures id in Defined(a + b)
  {
    hide Defined;
    DefinedConcat(a, b);
  }

  /** The parts of a for loop up to its advance label. */
  function ForFront(s: H.Stmt, n: nat): Piece
    requires s.For?
  {
    var i := LowerInitializer(s.initializer, n + 3);
    var t := Test(s.condition, i.next, JumpFalse(n + 2));
    var b := LowerBlock(s.body, t.next, n + 2, n + 1);
    Piece([StartBlock()] + i.code + [Load(T1, i.operand), Store(Local(s.counter),
                                                                T1)] + [NewLabel(n)] + t.code + b.code, b.next)
  }

  lemma ForAssoc(s: H.Stmt, n: nat, breakLabel: nat, continueLabel: nat)
    requires s.For?
    ensures var f := ForFront(s, n);
      var step := LowerPushed(s.increment, f.next);
      LowerStmt(s, n, breakLabel, continueLabel) == Piece(f.code + [NewLabel(n + 1)]
        + ([Load(T1, Local(s.counter)), Push(T1)] + step.code + AdvanceFront(s)) + [Jump(n)] + [NewLabel(n + 2)]
        + [Instr(END_BLOCK, Nothing, Nothing)], step.next)
  {
    hide LowerExpr, LowerBlock, LowerPushed, LowerInitializer;
    var i := LowerInitializer(s.initializer, n + 3);
    var t := Test(s.condition, i.next, JumpFalse(n + 2));
    var f := ForFront(s, n);
    var step := LowerPushed(s.increment, f.next);
    assert AdvanceTail(s.counter, s.decrement, n) == AdvanceFront(s) + [Jump(n)];
    FrontAssoc([StartBlock()] + i.code, Load(T1, i.operand), Store(Local(s.counter), T1), NewLabel(n),
      LowerExpr(s.condition, i.next).code, [Load(T1, LowerExpr(s.condition, i.next).operand), JumpFalse(n + 2)],
      LowerBlock(s.body, t.next, n + 2, n + 1).code);
    BackAssoc(f.code, NewLabel(n + 1), Load(T1, Local(s.counter)), Push(T1), step.code, AdvanceFront(s), Jump(n),
      NewLabel(n + 2), Instr(END_BLOCK, Nothing, Nothing));
  }

  function AdvanceFront(s: H.Stmt): seq<Instr>
    requires s.For?
  {
    [Pop(T2), Pop(T1), Instr(if s.decrement then SUB else ADD, T1, T2), Store(Local(s.counter), T1)]
  }

  lemma FrontAssoc(a: seq<Instr>, l0: Instr, st: Instr, n0: Instr, c: seq<Instr>, t: seq<Instr>, b: seq<Instr>)
    ensures a + [l0, st, n0] + c + t + b == a + [l0, st] + [n0] + (c + t) + b
  {
  }

  lemma BackAssoc(f: seq<Instr>, n1: Instr, l: Instr, ph: Instr, step: seq<Instr>, adv: seq<Instr>, j: Instr,
                  n2: Instr, e: Instr)
    ensures f + [n1, l, ph] + step + (adv + [j]) + [n2, e] == f + [n1] + ([l, ph] + step + adv) + [j] + [n2] + [e]
  {
    assert [n1, l, ph] == [n1] + [l, ph];
    assert [n2, e] == [n2] + [e];
    Flatten(f, [n1], [l, ph], step, adv, [j]);
  }

  lemma Flatten(f: seq<Instr>, a: seq<Instr>, b: seq<Instr>, c: seq<Instr>, d: seq<Instr>, e: seq<Instr>)
    ensures f + (a + b) + c + (d + e) == f + a + (b + c + d) + e
  {
  }

  lemma InitializerLabels(e: Option<H.Expr>, n: nat)
    ensures Closed(LowerInitializer(e, n).code, n, LowerInitializer(e, n).next, {})
  {
    hide Closed, LowerExpr;
    if e.None? {
      StraightIsClosed([], n, n, {});
    } else {
      ExprLabels(e.value, n);
    }
  }

  lemma ForFrontLabels(s: H.Stmt, n: nat)
    requires s.For?
    requires var t := Test(s.condition, LowerInitializer(s.initializer, n + 3).next, JumpFalse(n + 2));
      var b := LowerBlock(s.body, t.next, n + 2, n + 1); Closed(b.code, t.next, b.next, {n + 2, n + 1})
    ensures var f := ForFront(s, n);
      && Closed(f.code, n, f.next, {} + {n} + {n + 1} + {n + 2}) && n + 3 <= f.next
      && n in Defined(f.code) && n + 1 !in Defined(f.code) && n + 2 !in Defined(f.code)
  {
    hide Closed, LowerBlock, LowerExpr, LowerInitializer, NewLabel, Defined, Test;
    var wide := {} + {n} + {n + 1} + {n + 2};
    var i := LowerInitializer(s.initializer, n + 3);
    var t := Test(s.condition, i.next, JumpFalse(n + 2));
    var b := LowerBlock(s.body, t.next, n + 2, n + 1);
    InitializerLabels(s.initializer, n + 3);
    Widen(i.code, n + 3, i.next, {}, n + 3, i.next, wide);
    ClosedOrder(i.code, n + 3, i.next, wide);
    var a := [StartBlock()] + i.code + [Load(T1, i.operand), Store(Local(s.counter), T1)];
    WithStraight(i.code, [StartBlock()], n + 3, i.next, wide);
    WithStraight([StartBlock()] + i.code, [Load(T1, i.operand), Store(Local(s.counter), T1)], n + 3, i.next, wide);
    Misses(a, n, n + 3, i.next, wide);
    Misses(a, n + 1, n + 3, i.next, wide);
    Misses(a, n + 2, n + 3, i.next, wide);
    Widen(a, n + 3, i.next, wide, n, i.next, wide);
    AddLabelWide(a, n, n, i.next, wide);
    MissesLabel(n + 1, n);
    MissesLabel(n + 2, n);
    var c := a + [NewLabel(n)];
    MissesBoth(a, [NewLabel(n)], n + 1);
    MissesBoth(a, [NewLabel(n)], n + 2);
    TestLabels(s.condition, i.next, JumpFalse(n + 2), n + 2, wide);
    ClosedOrder(t.code, i.next, t.next, wide);
    Extend2(c, t.code, n, i.next, t.next, wide);
    Widen(b.code, t.next, b.next, {n + 2, n + 1}, t.next, b.next, wide);
    ClosedOrder(b.code, t.next, b.next, wide);
    Extend2(c + t.code, b.code, n, t.next, b.next, wide);
  }

  /** Later code leaves the loop's own labels as they are. */
  lemma Extend2(a: seq<Instr>, b: seq<Instr>, n: nat, mid: nat, next: nat, outer: set<nat>)
    requires Closed(a, n, mid, outer) && Closed(b, mid, next, outer) && n + 3 <= mid
    requires n in Defined(a) && n + 1 !in Defined(a) && n + 2 !in Defined(a)
    ensures Closed(a + b, n, next, outer) && n in Defined(a + b) && n + 1 !in Defined(a + b) && n + 2 !in Defined(a + b)
  {
    hide Closed, Defined;
    Adjacent(a, b, n, mid, next, outer);
    StaysDefined(a, b, n);
    Misses(b, n + 1, mid, next, outer);
    Misses(b, n + 2, mid, next, outer);
    MissesBoth(a, b, n + 1);
    MissesBoth(a, b, n + 2);
  }

  lemma ForLabels(s: H.Stmt, n: nat, breakLabel: nat, continueLabel: nat, outer: set<nat>)
    requires s.For?
    requires var t := Test(s.condition, LowerInitializer(s.initializer, n + 3).next, JumpFalse(n + 2));
      var b := LowerBlock(s.body, t.next, n + 2, n + 1); Closed(b.code, t.next, b.next, {n + 2, n + 1})
    ensures var p := LowerStmt(s, n, breakLabel, continueLabel); Closed(p.code, n, p.next, outer)
  {
    hide Closed, LowerBlock, LowerExpr, LowerInitializer, LowerPushed, LowerStmt, NewLabel, Defined, ForFront, Jump;
    var wide := {} + {n} + {n + 1} + {n + 2};
    ForFrontLabels(s, n);
    ForAssoc(s, n, breakLabel, continueLabel);
    var f := ForFront(s, n);
    var step := LowerPushed(s.increment, f.next);
    var advance := [Load(T1, Local(s.counter)), Push(T1)] + step.code + AdvanceFront(s);
    AddLabelWide(f.code, n + 1, n, f.next, wide);
    StaysDefined(f.code, [NewLabel(n + 1)], n);
    MissesLabel(n + 2, n + 1);
    MissesBoth(f.code, [NewLabel(n + 1)], n + 2);
    PushedLabels(s.increment, f.next);
    Widen(step.code, f.next, step.next, {}, f.next, step.next, wide);
    WithStraight(step.code, [Load(T1, Local(s.counter)), Push(T1)], f.next, step.next, wide);
    WithStraight([Load(T1, Local(s.counter)), Push(T1)] + step.code, AdvanceFront(s), f.next, step.next, wide);
    ForBack(f.code + [NewLabel(n + 1)], advance, n, f.next, step.next, outer);
  }

  lemma ForBack(a: seq<Instr>, advance: seq<Instr>, n: nat, mid: nat, next: nat, outer: set<nat>)
    requires Closed(a, n, mid, {} + {n} + {n + 1} + {n + 2}) && Closed(advance, mid, next, {} + {n} + {n + 1} + {n + 2})
    requires n in Defined(a) && n + 1 in Defined(a) && n + 2 !in Defined(a) && n + 3 <= mid
    ensures Closed(a + advance + [Jump(n)] + [NewLabel(n + 2)] + [Instr(END_BLOCK, Nothing, Nothing)], n, next, outer)
  {
    hide Closed, NewLabel, Defined, Jump;
    var wide := {} + {n} + {n + 1} + {n + 2};
    var x := a + advance;
    Adjacent(a, advance, n, mid, next, wide);
    ClosedOrder(advance, mid, next, wide);
    Misses(advance, n + 2, mid, next, wide);
    MissesBoth(a, advance, n + 2);
    StaysDefined(a, advance, n);
    StaysDefined(a, advance, n + 1);
    JumpShape(n);
    AddJump(x, Jump(n), n, n, next, wide);
    MissesJump(Jump(n), n + 2);
    MissesBoth(x, [Jump(n)], n + 2);
    StaysDefined(x, [Jump(n)], n);
    StaysDefined(x, [Jump(n)], n + 1);
    var y := x + [Jump(n)] + [NewLabel(n + 2)];
    AddLabelWide(x + [Jump(n)], n + 2, n, next, wide);
    StaysDefined(x + [Jump(n)], [NewLabel(n + 2)], n);
    StaysDefined(x + [Jump(n)], [NewLabel(n + 2)], n + 1);
    Narrow(y, n + 2, n, next, {} + {n} + {n + 1});
    Narrow(y, n + 1, n, next, {} + {n});
    Narrow(y, n, n, next, {});
    Widen(y, n, next, {}, n, next, outer);
    WithStraight(y, [Instr(END_BLOCK, Nothing, Nothing)], n, next, outer);
  }

  /** Every label of a statement is new and defined once, and every jump goes to one of them or to
      the break and continue labels of an enclosing loop. */
  lemma {:induction false} StmtLabels(s: H.Stmt, inLoop: bool, n: nat, breakLabel: nat, continueLabel: nat)
    requires H.StmtOk(s, inLoop)
    ensures var p := LowerStmt(s, n, breakLabel, continueLabel);
      Closed(p.code, n, p.next, Outer(inLoop, breakLabel, continueLabel))
    decreases s, 3
  {
    hide Closed, LowerExpr, LowerBlock, LowerPushed, LowerInitializer, LowerStored, AdvanceTail, H.ExprOk;
    var outer := Outer(inLoop, breakLabel, continueLabel);
    match s
    case Skip => StraightIsClosed([], n, n, outer);
    case Block(body) => BlockLabels(body, inLoop, n, breakLabel, continueLabel);
    case Declare(uid, initial) =>
      if initial.None? {
        StraightIsClosed([Store(Local(uid), Nothing)], n, n, outer);
      } else {
        StoredLabels(initial.value, uid, n, outer);
      }
    case Assign(uid, value) => StoredLabels(value, uid, n, outer);
    case CallStmt(callee, arguments) =>
      var x := LowerExpr(H.Call(callee, arguments), n);
      ExprLabels(H.Call(callee, arguments), n);
      Widen(x.code, n, x.next, {}, n, x.next, outer);
    case If(condition, body, otherwise) => BranchLabels(s, inLoop, n, breakLabel, continueLabel);
    case While(condition, body, doFirst) => LoopLabels(s, inLoop, n, breakLabel, continueLabel);
    case For(_, initializer, condition, _, _, body) => LoopLabels(s, inLoop, n, breakLabel, continueLabel);
    case Break => LeaveLabels(breakLabel, n, outer);
    case Continue => LeaveLabels(continueLabel, n, outer);
    case Return(result) =>
      var x := LowerInitializer(result, n);
      InitializerLabels(result, n);
      Widen(x.code, n, x.next, {}, n, x.next, outer);
      WithStraight(x.code, [Instr(RETURN, Nothing, x.operand)], n, x.next, outer);
  }

  lemma StoredLabels(e: H.Expr, uid: nat, n: nat, outer: set<nat>)
    ensures Closed(LowerStored(e, uid, n).code, n, LowerStored(e, uid, n).next, outer)
  {
    hide Closed, LowerExpr;
    var x := LowerExpr(e, n);
    ExprLabels(e, n);
    Widen(x.code, n, x.next, {}, n, x.next, outer);
    WithStraight(x.code, [Load(T1, x.operand), Store(Local(uid), T1)], n, x.next, outer);
  }

  lemma LeaveLabels(id: nat, n: nat, outer: set<nat>)
    requires id in outer
    ensures Closed([EndBlock(true), Jump(id)], n, n, outer)
  {
    hide Closed;
    StraightIsClosed([EndBlock(true)], n, n, outer);
    AddJump([EndBlock(true)], Jump(id), id, n, n, outer);
    assert [EndBlock(true)] + [Jump(id)] == [EndBlock(true), Jump(id)];
  }

  lemma {:induction false} BranchLabels(s: H.Stmt, inLoop: bool, n: nat, breakLabel: nat, continueLabel: nat)
    requires s.If? && H.StmtOk(s, inLoop)
    ensures var p := LowerStmt(s, n, breakLabel, continueLabel);
      Closed(p.code, n, p.next, Outer(inLoop, breakLabel, continueLabel))
    decreases s, 0
  {
    hide Closed, LowerExpr, LowerBlock, LowerStmt, H.ExprOk, Outer;
    var outer := Outer(inLoop, breakLabel, continueLabel);
    if s.otherwise == [] {
      BlockLabels(s.body, inLoop, LowerExpr(s.condition, n + 1).next, breakLabel, continueLabel);
      IfLabels(s, n, breakLabel, continueLabel, outer);
    } else {
      var next := LowerExpr(s.condition, n + 2).next;
      BlockLabels(s.body, inLoop, next, breakLabel, continueLabel);
      BlockLabels(s.otherwise, inLoop, LowerBlock(s.body, next, breakLabel, continueLabel).next, breakLabel,
                  continueLabel);
      IfElseLabels(s, n, breakLabel, continueLabel, outer);
    }
  }

  lemma {:induction false} LoopLabels(s: H.Stmt, inLoop: bool, n: nat, breakLabel: nat, continueLabel: nat)
    requires (s.While? || s.For?) && H.StmtOk(s, inLoop)
    ensures var p := LowerStmt(s, n, breakLabel, continueLabel);
      Closed(p.code, n, p.next, Outer(inLoop, breakLabel, continueLabel))
    decreases s, 0
  {
    hide Closed, LowerExpr, LowerBlock, LowerStmt, LowerInitializer, H.ExprOk;
    var outer := Outer(inLoop, breakLabel, continueLabel);
    if s.For? {
      BlockLabels(s.body, true, Test(s.condition, LowerInitializer(s.initializer, n + 3).next, JumpFalse(n + 2)).next,
                  n + 2, n + 1);
      ForLabels(s, n, breakLabel, continueLabel, outer);
    } else if s.doFirst {
      BlockLabels(s.body, true, n + 3, n + 2, n);
      DoLabels(s, n, breakLabel, continueLabel, outer);
    } else {
      BlockLabels(s.body, true, LowerExpr(s.condition, n + 3).next, n + 2, n);
      WhileLabels(s, n, breakLabel, continueLabel, outer);
    }
  }

  lemma {:induction false} BlockLabels(ss: seq<H.Stmt>, inLoop: bool, n: nat, breakLabel: nat, continueLabel: nat)
    requires H.StmtsOk(ss, inLoop)
    ensures var p := LowerBlock(ss, n, breakLabel, continueLabel);
      Closed(p.code, n, p.next, Outer(inLoop, breakLabel, continueLabel))
    decreases ss, 2
  {
    hide Closed, LowerAll, Outer, H.StmtsOk;
    var b := LowerAll(ss, n, breakLabel, continueLabel);
    var outer := Outer(inLoop, breakLabel, continueLabel);
    AllLabels(ss, inLoop, n, breakLabel, continueLabel);
    WithStraight(b.code, [StartBlock()], n, b.next, outer);
    WithStraight([StartBlock()] + b.code, [EndBlock(false)], n, b.next, outer);
  }

  lemma {:induction false} AllLabels(ss: seq<H.Stmt>, inLoop: bool, n: nat, breakLabel: nat, continueLabel: nat)
    requires H.StmtsOk(ss, inLoop)
    ensures var p := LowerAll(ss, n, breakLabel, continueLabel);
      Closed(p.code, n, p.next, Outer(inLoop, breakLabel, continueLabel))
    decreases ss, 1
  {
    hide Closed, LowerStmt, Outer, H.StmtOk;
    var outer := Outer(inLoop, breakLabel, continueLabel);
    if ss == [] {
      StraightIsClosed([], n, n, outer);
    } else {
      var s := LowerStmt(ss[0], n, breakLabel, continueLabel);
      var more := LowerAll(ss[1..], s.next, breakLabel, continueLabel);
      StmtLabels(ss[0], inLoop, n, breakLabel, continueLabel);
      AllLabels(ss[1..], inLoop, s.next, breakLabel, continueLabel);
      Adjacent(s.code, more.code, n, s.next, more.next, outer);
    }
  }
}
