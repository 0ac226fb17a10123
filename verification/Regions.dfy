/** Code that only jumps within itself: its runs do not depend on what follows it, and an argument
    register that none of its instructions overwrites keeps its value. */
module Regions {
  import opened Words
  import opened Environment
  import opened Lir
  import opened Lowering
  import opened Runs
  import opened Liveness
  import opened Labels
  import H = Hir

  /** No instruction of the code gives the argument register a new value. */
  predicate Keeps(code: seq<Instr>, j: nat) {
    forall i :: 0 <= i < |code| ==> !Changes(code[i], Slot(j))
  }

  /** The code lies at p, and all its jumps go to labels of its own. */
  ghost predicate Contained(prog: seq<Instr>, p: nat, code: seq<Instr>) {
    At(prog, p, code) && UniqueLabels(prog) && WellFormed(code) && Targets(code) <= Defined(code)
  }

  /** The program up to the end of the code. */
  function Cut(prog: seq<Instr>, p: nat, code: seq<Instr>): seq<Instr>
    requires p + |code| <= |prog|
  {
    prog[..p + |code|]
  }

  lemma CutKeeps(prog: seq<Instr>, p: nat, code: seq<Instr>)
    requires Contained(prog, p, code)
    ensures p + |code| <= |prog|
    ensures At(Cut(prog, p, code), p, code) && UniqueLabels(Cut(prog, p, code))
  {
    var cut := Cut(prog, p, code);
    assert cut[p..p + |code|] == prog[p..p + |code|];
  }

  lemma FindInside(prog: seq<Instr>, p: nat, code: seq<Instr>, id: nat)
    requires Contained(prog, p, code) && id in Defined(code)
    ensures p + |code| <= |prog|
    ensures p <= Find(prog, id) < p + |code| && Find(Cut(prog, p, code), id) == Find(prog, id)
  {
    hide Find, At, UniqueLabels;
    CutKeeps(prog, p, code);
    var i :| 0 <= i < |code| && code[i].op.NEW_LABEL? && code[i].src.Label? && code[i].src.id == id;
    AtIndex(prog, p, code);
    assert prog[p + i] == code[i];
    FindUnique(prog, p + i, id);
    FindUnique(Cut(prog, p, code), p + i, id);
  }

  lemma WriteKeeps(m: Machine, o: Operand, v: Word, j: nat)
    requires m.Valid() && j < MAX_REGISTER_ARGUMENTS && !Is(o, Slot(j))
    ensures Write(m, o, v).Valid() && Write(m, o, v).slots[j] == m.slots[j]
  {
  }

  lemma MathKeeps(w: World, m: Machine, i: Instr, j: nat)
    requires m.Valid() && j < MAX_REGISTER_ARGUMENTS && !Changes(i, Slot(j)) && IsMath(i.op)
    ensures DoMath(w, m, i).Valid() && DoMath(w, m, i).slots[j] == m.slots[j]
  {
    hide Read, Write, Alu, Is, TruncMod;
    var a, b := Read(w, m, i.dst), Read(w, m, i.src);
    if a.Some? && b.Some? {
      var r := Alu(i.op, a.value, b.value);
      if r.Some? {
        WriteKeeps(WithRemainder(w, m, i, a.value, b.value), i.dst, r.value, j);
      }
    }
  }

  lemma MoveKeeps(w: World, m: Machine, dst: Operand, src: Operand, j: nat)
    requires m.Valid() && j < MAX_REGISTER_ARGUMENTS && !Is(dst, Slot(j))
    ensures Move(w, m, dst, src).Valid() && Move(w, m, dst, src).slots[j] == m.slots[j]
  {
    hide Read, Write, Is;
    var v := Read(w, m, src);
    if v.Some? {
      WriteKeeps(m, dst, v.value, j);
    }
  }

  lemma SlotKept(w: World, m: Machine, i: Instr, j: nat)
    requires m.Valid() && j < MAX_REGISTER_ARGUMENTS && !Changes(i, Slot(j))
    ensures Effect(w, m, i).Valid() && Effect(w, m, i).slots[j] == m.slots[j]
  {
    hide Read, Write, Move, DoMath, SetResult, UnaryResult, Is;
    if IsMath(i.op) {
      MathKeeps(w, m, i, j);
    } else if IsSet(i.op) {
      WriteKeeps(m, i.dst, SetResult(i.op, m.compared), j);
    } else if i.op.LOAD? || i.op.STORE? {
      MoveKeeps(w, m, i.dst, i.src, j);
    } else if i.op.POP? {
      if m.stack != [] {
        WriteKeeps(m.(stack := m.stack[..|m.stack| - 1]), i.dst, m.stack[|m.stack| - 1], j);
      }
    } else if i.op.NEG? || i.op.NOT? || i.op.BOOL_NOT? {
      var a := Read(w, m, i.dst);
      if a.Some? {
        WriteKeeps(m, i.dst, UnaryResult(i.op, a.value), j);
      }
    }
  }

  lemma ExecuteKeeps(prog: seq<Instr>, w: World, m: Machine, i: Instr, j: nat)
    requires m.Valid() && j < MAX_REGISTER_ARGUMENTS && !Changes(i, Slot(j))
    ensures Execute(prog, w, m, i).Valid() && Execute(prog, w, m, i).slots[j] == m.slots[j]
  {
    hide Read, Effect, Find, Changes;
    SlotKept(w, m, i, j);
  }

  /** A step inside the code does not leave it but at its end, and the program may be cut off there. */
  lemma StepInside(prog: seq<Instr>, p: nat, code: seq<Instr>, w: World, m: Machine)
    requires Contained(prog, p, code) && p <= m.pc < p + |code| && m.status.Running?
    ensures p + |code| <= |prog| && prog[m.pc] == code[m.pc - p]
    ensures var s := Step(prog, w, m);
      Step(Cut(prog, p, code), w, m) == s && (s.status.Running? ==> p <= s.pc <= p + |code|)
  {
    hide Effect, Read, Find, At, UniqueLabels;
    CutKeeps(prog, p, code);
    AtIndex(prog, p, code);
    var i := code[m.pc - p];
    assert prog[p + (m.pc - p)] == i;
    if IsJump(i.op) {
      assert i.dst.Label? && i.dst.id in Targets(code);
      FindInside(prog, p, code, i.dst.id);
    } else {
      EffectKeepsPc(w, m, i);
    }
  }

  lemma StepInsideKeeps(prog: seq<Instr>, p: nat, code: seq<Instr>, w: World, m: Machine, j: nat)
    requires Contained(prog, p, code) && p <= m.pc < p + |code| && m.status.Running? && m.Valid()
    requires j < MAX_REGISTER_ARGUMENTS && Keeps(code, j) && Step(prog, w, m).status.Running?
    ensures Step(prog, w, m).Valid() && Step(prog, w, m).slots[j] == m.slots[j]
  {
    hide Execute, Changes;
    StepInside(prog, p, code, w, m);
    ExecuteKeeps(prog, w, m, prog[m.pc], j);
  }

  lemma {:induction false} CutEnds(prog: seq<Instr>, p: nat, code: seq<Instr>, w: World, m: Machine, k: nat)
    requires p + |code| <= |prog| && m.status.Running? && m.pc == p + |code| && k > 0
    ensures Run(Cut(prog, p, code), w, m, k).status == Stuck
  {
    HaltedStays(Cut(prog, p, code), w, m.(status := Stuck), k - 1);
  }

  /** A run that stays in the code in the program cut off behind it is the run of the whole program. */
  lemma {:induction false} RunInside(prog: seq<Instr>, p: nat, code: seq<Instr>, w: World, m: Machine, k: nat,
                                     low: nat, high: nat)
    requires Contained(prog, p, code) && p + |code| <= |prog|
    requires m.status.Running? ==> p <= m.pc <= p + |code|
    requires Inside(Cut(prog, p, code), w, m, k, low, high) && !Run(Cut(prog, p, code), w, m, k).status.Stuck?
    ensures Run(prog, w, m, k) == Run(Cut(prog, p, code), w, m, k) && Inside(prog, w, m, k, low, high)
    decreases k
  {
    hide Step, Contained, Cut;
    if k > 0 {
      if m.status.Running? {
        if m.pc == p + |code| {
          CutEnds(prog, p, code, w, m, k);
        }
        StepInside(prog, p, code, w, m);
      } else {
        HaltedStep(prog, w, m);
        HaltedStep(Cut(prog, p, code), w, m);
      }
      RunInside(prog, p, code, w, Step(prog, w, m), k - 1, low, high);
    }
  }

  lemma HaltedStep(prog: seq<Instr>, w: World, m: Machine)
    requires !m.status.Running?
    ensures Step(prog, w, m) == m
  {
  }

  /** And it keeps the registers that the code keeps. */
  lemma {:induction false} RunInsideKeeps(prog: seq<Instr>, p: nat, code: seq<Instr>, w: World, m: Machine, k: nat,
                                          j: nat)
    requires Contained(prog, p, code) && p + |code| <= |prog| && m.Valid()
    requires m.status.Running? && p <= m.pc <= p + |code|
    requires Run(Cut(prog, p, code), w, m, k).status.Running?
    requires j < MAX_REGISTER_ARGUMENTS && Keeps(code, j)
    ensures Run(Cut(prog, p, code), w, m, k).Valid() && Run(Cut(prog, p, code), w, m, k).slots[j] == m.slots[j]
    decreases k
  {
    hide Step, Contained, Cut, Keeps;
    if k > 0 {
      if m.pc == p + |code| {
        CutEnds(prog, p, code, w, m, k);
      }
      StepInside(prog, p, code, w, m);
      var s := Step(prog, w, m);
      if !s.status.Running? {
        HaltedStays(Cut(prog, p, code), w, s, k - 1);
      }
      StepInsideKeeps(prog, p, code, w, m, j);
      RunInsideKeeps(prog, p, code, w, s, k - 1, j);
    }
  }

  // ----- Expressions that spare a register -----

  lemma KeepsBoth(a: seq<Instr>, b: seq<Instr>, j: nat)
    requires Keeps(a, j) && Keeps(b, j)
    ensures Keeps(a + b, j)
  {
    hide Changes;
  }

  lemma {:induction false} ExprKeeps(e: H.Expr, n: nat, j: nat)
    requires H.Spares(e, j)
    ensures Keeps(LowerExpr(e, n).code, j)
    decreases e, 0
  {
    hide Keeps, LowerPushed, LowerTerms, LowerComparison, LowerLinks, LowerComplexArguments, LowerPlainArguments,
      StoreComplexArguments, ConditionTail, Join, UnaryOpcode;
    match e
    case Literal(_) => KeepsNothing(j);
    case Variable(_) => KeepsNothing(j);
    case Math(first, rest) =>
      var f := LowerPushed(first, n);
      PushedKeeps(first, n, j);
      if rest == [] {
        NoTerms(f.next);
        KeepsNothing(j);
      } else {
        TermsKeep(rest, [], f.next, j);
      }
      KeepsBoth(f.code, LowerTerms(rest, [], f.next).code, j);
      MovesKeep(j);
      KeepsBoth(f.code + LowerTerms(rest, [], f.next).code, [Pop(T1)], j);
    case Condition(head, links) =>
      if links == [] {
        ComparisonKeeps(head, n + 1, j);
      } else {
        ComparisonKeeps(head, n + 2, j);
        LinksKeep(links, LowerComparison(head, n + 2).next, n, n + 1, j);
        ChainKeeps(head, links, n, j);
      }
    case Unary(unary, operand) =>
      var x := LowerExpr(operand, n);
      ExprKeeps(operand, n, j);
      UnaryKeeps(x.operand, unary, j);
      KeepsBoth(x.code, [Load(T1, x.operand), Instr(UnaryOpcode(unary), T1, Nothing)], j);
    case Cast(value) =>
      var x := LowerExpr(value, n);
      ExprKeeps(value, n, j);
      LoadKeeps(x.operand, j);
      KeepsBoth(x.code, [Load(T1, x.operand)], j);
  }

  lemma NoTerms(n: nat)
    ensures LowerTerms([], [], n).code == []
  {
  }

  lemma KeepsNothing(j: nat)
    ensures Keeps([], j)
  {
  }

  lemma MovesKeep(j: nat)
    ensures Keeps([Pop(T1)], j) && Keeps([Push(T1)], j)
  {
  }

  lemma LoadKeeps(o: Operand, j: nat)
    ensures Keeps([Load(T1, o)], j) && Keeps([Load(T1, o), Push(T1)], j)
  {
  }

  lemma UnaryKeeps(o: Operand, op: H.UnaryToken, j: nat)
    ensures Keeps([Load(T1, o), Instr(UnaryOpcode(op), T1, Nothing)], j)
  {
  }

  lemma {:induction false} PushedKeeps(e: H.Expr, n: nat, j: nat)
    requires H.Spares(e, j)
    ensures Keeps(LowerPushed(e, n).code, j)
    decreases e, 1
  {
    hide Keeps, LowerExpr;
    var x := LowerExpr(e, n);
    ExprKeeps(e, n, j);
    LoadKeeps(x.operand, j);
    KeepsBoth(x.code, [Load(T1, x.operand), Push(T1)], j);
  }

  predicate DelayedSpares(delayed: seq<H.MathToken>, j: nat) {
    forall i :: 0 <= i < |delayed| ==> H.OperatorSpares(delayed[i], j)
  }

  lemma OperationKeeps(op: H.MathToken, j: nat)
    requires H.OperatorSpares(op, j)
    ensures Keeps(DoMathOperation(op), j)
  {
  }

  lemma {:induction false} FlushKeeps(delayed: seq<H.MathToken>, j: nat)
    requires DelayedSpares(delayed, j)
    ensures Keeps(Flush(delayed), j)
    decreases |delayed|
  {
    hide Keeps, DoMathOperation, H.OperatorSpares;
    if delayed == [] {
      KeepsNothing(j);
    } else {
      var last := |delayed| - 1;
      OperationKeeps(delayed[last], j);
      FlushKeeps(delayed[..last], j);
      KeepsBoth(DoMathOperation(delayed[last]), Flush(delayed[..last]), j);
    }
  }

  lemma {:induction false} TermsKeep(rest: seq<H.Term>, delayed: seq<H.MathToken>, n: nat, j: nat)
    requires forall i :: 0 <= i < |rest| ==> H.TermSpares(rest[i], j)
    requires DelayedSpares(delayed, j)
    ensures Keeps(LowerTerms(rest, delayed, n).code, j)
    decreases rest
  {
    hide Keeps, LowerPushed, Flush, Keep, H.Precedence, H.OperatorSpares, H.Spares;
    if rest == [] {
      FlushKeeps(delayed, j);
    } else {
      var term: H.Term := rest[0];
      var op, operand := term.op, term.operand;
      assert operand < term;
      assert H.TermSpares(term, j);
      var k := Keep(delayed, H.Precedence(op));
      var x := LowerPushed(operand, n);
      var more := LowerTerms(rest[1..], delayed[..k] + [op], x.next);
      PushedKeeps(operand, n, j);
      TermsKeep(rest[1..], delayed[..k] + [op], x.next, j);
      FlushKeeps(delayed[k..], j);
      KeepsBoth(Flush(delayed[k..]), x.code, j);
      KeepsBoth(Flush(delayed[k..]) + x.code, more.code, j);
    }
  }

  lemma {:induction false} ComparisonKeeps(c: H.Comparison, n: nat, j: nat)
    requires H.ComparisonSpares(c, j)
    ensures Keeps(LowerComparison(c, n).code, j)
    decreases c
  {
    hide Keeps, LowerPushed, H.Spares;
    var l := LowerPushed(c.lhs, n);
    var r := LowerPushed(c.rhs, l.next);
    PushedKeeps(c.lhs, n, j);
    PushedKeeps(c.rhs, l.next, j);
    ComparisonTailKeeps(c.op, j);
    KeepsBoth(l.code, r.code, j);
    KeepsBoth(l.code + r.code, ComparisonTail(c.op), j);
  }

  lemma ComparisonTailKeeps(op: H.CompareToken, j: nat)
    requires j != H.SECOND_PLACE
    ensures Keeps(ComparisonTail(op), j)
  {
  }

  lemma JoinKeeps(useAnd: bool, links: seq<H.Link>, trueLabel: nat, falseLabel: nat, j: nat)
    requires j != H.SECOND_PLACE
    ensures Keeps(Join(useAnd, links, trueLabel, falseLabel), j)
  {
  }

  lemma TailKeeps(trueLabel: nat, falseLabel: nat, doneLabel: nat, j: nat)
    ensures Keeps(ConditionTail(trueLabel, falseLabel, doneLabel), j)
  {
  }

  lemma {:induction false} LinksKeep(links: seq<H.Link>, n: nat, trueLabel: nat, falseLabel: nat, j: nat)
    requires forall i :: 0 <= i < |links| ==> H.LinkSpares(links[i], j)
    requires j != H.SECOND_PLACE
    ensures Keeps(LowerLinks(links, n, trueLabel, falseLabel).code, j)
    decreases links
  {
    hide Keeps, LowerComparison, Join, H.ComparisonSpares;
    if links == [] {
      KeepsNothing(j);
    } else {
      var link: H.Link := links[0];
      var chain, comparison := link.chain, link.comparison;
      assert comparison < link;
      assert H.LinkSpares(link, j);
      var c := LowerComparison(comparison, n);
      var join := Join(chain.BoolAnd?, links[1..], trueLabel, falseLabel);
      var more := LowerLinks(links[1..], c.next, trueLabel, falseLabel);
      ComparisonKeeps(comparison, n, j);
      JoinKeeps(chain.BoolAnd?, links[1..], trueLabel, falseLabel, j);
      LinksKeep(links[1..], c.next, trueLabel, falseLabel, j);
      KeepsBoth(c.code, join, j);
      KeepsBoth(c.code + join, more.code, j);
    }
  }

  lemma ChainKeeps(head: H.Comparison, links: seq<H.Link>, n: nat, j: nat)
    requires links != [] && j != H.SECOND_PLACE && Keeps(LowerComparison(head, n + 2).code, j)
    requires Keeps(LowerLinks(links, LowerComparison(head, n + 2).next, n, n + 1).code, j)
    ensures Keeps(LowerExpr(H.Condition(head, links), n).code, j)
  {
    hide Keeps, LowerComparison, LowerLinks, Join, ConditionTail;
    var c := LowerComparison(head, n + 2);
    var r := LowerLinks(links, c.next, n, n + 1);
    var front := [Load(T1, Imm(0)), Push(T1)] + c.code;
    LoadKeeps(Imm(0), j);
    KeepsBoth([Load(T1, Imm(0)), Push(T1)], c.code, j);
    JoinKeeps(false, links, n, n + 1, j);
    KeepsBoth(front, Join(false, links, n, n + 1), j);
    KeepsBoth(front + Join(false, links, n, n + 1), r.code, j);
    TailKeeps(n, n + 1, r.next, j);
    KeepsBoth(front + Join(false, links, n, n + 1) + r.code, ConditionTail(n, n + 1, r.next), j);
  }

  /** The code of an expression is contained wherever it lies. */
  lemma ExprContained(prog: seq<Instr>, p: nat, e: H.Expr, n: nat)
    requires At(prog, p, LowerExpr(e, n).code) && UniqueLabels(prog)
    ensures Contained(prog, p, LowerExpr(e, n).code)
  {
    hide LowerExpr, At, UniqueLabels;
    ExprLabels(e, n);
  }
}
