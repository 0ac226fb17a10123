/** In lowered code the first temporary is always overwritten before it is read after a push, so a
    loaded value may be pushed straight from where it was, at any set of places. */
module PushForwarding {
  import opened Words
  import opened Lir
  import opened Lowering
  import opened Liveness
  import opened Rewriting
  import opened Optimizing
  import OptimizerProof
  import H = Hir

  /** From position k straight on, `t1` is overwritten before it is used. */
  predicate Killed(code: seq<Instr>, k: nat)
    decreases |code| - k
  {
    && k < |code| && !Uses(code[k], Accumulator) && !IsControl(code[k].op)
    && (Overwrites(code[k], Accumulator) || Killed(code, k + 1))
  }

  /** Every push but a last one is followed by code that kills `t1`. */
  predicate Loose(code: seq<Instr>) {
    forall k :: 0 <= k < |code| - 1 && code[k].op.PUSH? ==> Killed(code, k + 1)
  }

  /** Code that may follow a push. */
  predicate Follows(code: seq<Instr>) {
    Loose(code) && Killed(code, 0)
  }

  /** Code that does not end in a push. */
  predicate Settled(code: seq<Instr>) {
    Loose(code) && (code != [] ==> !code[|code| - 1].op.PUSH?)
  }

  lemma {:induction false} KilledFirst(a: seq<Instr>, b: seq<Instr>, k: nat)
    requires Killed(a, k)
    ensures Killed(a + b, k)
    decreases |a| - k
  {
    if !Overwrites(a[k], Accumulator) {
      KilledFirst(a, b, k + 1);
    }
  }

  lemma {:induction false} KilledSecond(a: seq<Instr>, b: seq<Instr>, k: nat)
    requires Killed(b, k)
    ensures Killed(a + b, |a| + k)
    decreases |b| - k
  {
    if !Overwrites(b[k], Accumulator) {
      KilledSecond(a, b, k + 1);
    }
  }

  lemma LooseThen(a: seq<Instr>, b: seq<Instr>)
    requires Loose(a) && Loose(b) && (a != [] && a[|a| - 1].op.PUSH? ==> b == [] || Killed(b, 0))
    ensures Loose(a + b)
  {
    hide Killed;
    var c := a + b;
    forall k | 0 <= k < |c| - 1 && c[k].op.PUSH?
      ensures Killed(c, k + 1)
    {
      if k < |a| - 1 {
        assert a[k] == c[k];
        KilledFirst(a, b, k + 1);
      } else if k >= |a| {
        assert b[k - |a|] == c[k];
        KilledSecond(a, b, k - |a| + 1);
      } else {
        KilledSecond(a, b, 0);
      }
    }
  }

  lemma SettledThen(a: seq<Instr>, b: seq<Instr>)
    requires Settled(a) && Settled(b)
    ensures Settled(a + b)
  {
    hide Loose;
    LooseThen(a, b);
  }

  /** Settled code that kills `t1` itself, or nothing at all, before code that follows a push. */
  lemma StartThen(a: seq<Instr>, b: seq<Instr>)
    requires Settled(a) && Follows(b) && (a != [] ==> Killed(a, 0))
    ensures Follows(a + b)
  {
    hide Loose, Killed;
    LooseThen(a, b);
    if a != [] {
      KilledFirst(a, b, 0);
    } else {
      assert a + b == b;
    }
  }

  // ----- Pieces of lowered code -----

  lemma LoadPush(o: Operand, tail: seq<Instr>)
    requires Follows(tail) && !o.Register?
    ensures Follows([Load(T1, o), Push(T1)] + tail)
  {
    hide Killed;
    var a := [Load(T1, o), Push(T1)];
    TwoKilled(a);
    LooseThen(a, tail);
    KilledFirst(a, tail, 0);
  }

  /** A move into `t1`, a pop into it or a call kills it at once. */
  lemma TwoKilled(code: seq<Instr>)
    requires code != [] && Overwrites(code[0], Accumulator) && !Uses(code[0], Accumulator) && !IsControl(code[0].op)
    ensures Killed(code, 0)
    ensures |code| == 2 && !code[0].op.PUSH? ==> Loose(code)
  {
  }

  lemma NoPushes(code: seq<Instr>)
    requires forall i :: 0 <= i < |code| ==> !code[i].op.PUSH?
    ensures Settled(code)
  {
  }

  lemma DoMathBefore(op: H.MathToken, tail: seq<Instr>)
    requires Follows(tail)
    ensures Follows(DoMathOperation(op) + tail)
  {
    hide Killed;
    var a := DoMathOperation(op);
    DoMathKilled(op);
    LooseThen(a, tail);
    KilledFirst(a, tail, 0);
  }

  lemma DoMathKilled(op: H.MathToken)
    ensures Killed(DoMathOperation(op), 0) && Loose(DoMathOperation(op))
  {
    var a := DoMathOperation(op);
    assert a[0] == Pop(T2) && a[1] == Pop(T1) && a[3] == Push(T1) && |a| == 4;
    assert Killed(a, 1);
  }

  lemma {:induction false} FlushBefore(delayed: seq<H.MathToken>, tail: seq<Instr>)
    requires Follows(tail)
    ensures Follows(Flush(delayed) + tail)
    decreases |delayed|
  {
    hide Follows, DoMathOperation;
    if delayed == [] {
      assert Flush(delayed) + tail == tail;
    } else {
      var rest := Flush(delayed[..|delayed| - 1]);
      FlushBefore(delayed[..|delayed| - 1], tail);
      DoMathBefore(delayed[|delayed| - 1], rest + tail);
      assert Flush(delayed) + tail == DoMathOperation(delayed[|delayed| - 1]) + (rest + tail);
    }
  }

  /** The code of an expression is settled; it kills `t1`, or there is none and the value is not in a register. */
  ghost predicate Kills(x: Lowered) {
    && Settled(x.code) && (x.code != [] ==> Killed(x.code, 0))
    && (x.code == [] ==> !x.operand.Register?)
  }

  lemma FollowsSettled(code: seq<Instr>, i: Instr)
    requires Follows(code + [i]) && !i.op.PUSH?
    ensures Settled(code + [i]) && Killed(code + [i], 0)
  {
    hide Killed;
  }

  lemma {:induction false} ExprKills(e: H.Expr, n: nat)
    ensures Kills(LowerExpr(e, n))
    decreases e, 1
  {
    hide Settled, Killed, Follows, LowerPushed, LowerTerms, LowerComparison, LowerLinks, LowerComplexArguments,
      LowerPlainArguments, StoreComplexArguments, Join, ConditionTail;
    match e
    case Literal(_) => NoPushes([]);
    case Variable(_) => NoPushes([]);
    case Math(first, rest) => MathKills(first, rest, n);
    case Condition(head, links) => ConditionKills(head, links, n);
    case Unary(unary, operand) =>
      ExprKills(operand, n);
      LoadedKills(LowerExpr(operand, n), [Instr(UnaryOpcode(unary), T1, Nothing)]);
    case Cast(value) =>
      ExprKills(value, n);
      LoadedKills(LowerExpr(value, n), []);
      assert [Load(T1, LowerExpr(value, n).operand)] + [] == [Load(T1, LowerExpr(value, n).operand)];
    case Call(callee, arguments) => CallKills(callee, arguments, n);
  }

  /** The value of an expression loaded into `t1`, and something done with it. */
  lemma LoadedKills(x: Lowered, more: seq<Instr>)
    requires Kills(x) && (forall i :: 0 <= i < |more| ==> !more[i].op.PUSH?)
    ensures Settled(x.code + ([Load(T1, x.operand)] + more)) && Killed(x.code + ([Load(T1, x.operand)] + more), 0)
    ensures x.code + ([Load(T1, x.operand)] + more) != []
    ensures forall i :: more == [i] ==> x.code + ([Load(T1, x.operand)] + more) == x.code + [Load(T1, x.operand), i]
  {
    hide Killed;
    var load := [Load(T1, x.operand)] + more;
    assert Settled(load) by { NoPushes(load); }
    SettledThen(x.code, load);
    if x.code == [] {
      TwoKilled(load);
      assert x.code + load == load;
    } else {
      KilledFirst(x.code, load, 0);
    }
  }

  /** An expression pushed, and code that may follow a push. */
  lemma {:induction false} PushedBefore(e: H.Expr, n: nat, tail: seq<Instr>)
    requires Follows(tail)
    ensures Follows(LowerPushed(e, n).code + tail)
    decreases e, 2
  {
    hide Killed, LowerExpr, Loose;
    ExprKills(e, n);
    var x := LowerExpr(e, n);
    var push := [Load(T1, x.operand), Push(T1)];
    assert LowerPushed(e, n).code + tail == x.code + (push + tail);
    if x.code == [] {
      LoadPush(x.operand, tail);
      assert x.code + (push + tail) == push + tail;
    } else {
      PushLoose(x.operand, tail);
      LooseThen(x.code, push + tail);
      KilledFirst(x.code, push + tail, 0);
    }
  }

  lemma PushLoose(o: Operand, tail: seq<Instr>)
    requires Follows(tail)
    ensures Loose([Load(T1, o), Push(T1)] + tail)
  {
    hide Killed;
    var push := [Load(T1, o), Push(T1)];
    assert Loose(push);
    LooseThen(push, tail);
  }

  lemma {:induction false} TermsBefore(rest: seq<H.Term>, delayed: seq<H.MathToken>, n: nat, tail: seq<Instr>)
    requires Follows(tail)
    ensures Follows(LowerTerms(rest, delayed, n).code + tail)
    decreases rest
  {
    hide Follows, Flush, LowerPushed, Keep, H.Precedence;
    if rest == [] {
      FlushBefore(delayed, tail);
    } else {
      var term: H.Term := rest[0];
      var operand := term.operand;
      assert operand < term;
      var k := Keep(delayed, H.Precedence(term.op));
      var x := LowerPushed(operand, n);
      var more := LowerTerms(rest[1..], delayed[..k] + [term.op], x.next);
      TermsBefore(rest[1..], delayed[..k] + [term.op], x.next, tail);
      PushedBefore(operand, n, more.code + tail);
      FlushBefore(delayed[k..], x.code + (more.code + tail));
      Associate4(Flush(delayed[k..]), x.code, more.code, tail);
    }
  }

  lemma Associate4(a: seq<Instr>, b: seq<Instr>, c: seq<Instr>, d: seq<Instr>)
    ensures a + b + c + d == a + (b + (c + d))
  {
  }

  lemma PopFollows(more: seq<Instr>)
    requires forall i :: 0 <= i < |more| ==> !more[i].op.PUSH?
    ensures Follows([Pop(T1)] + more)
  {
    hide Killed;
    NoPushes([Pop(T1)] + more);
    TwoKilled([Pop(T1)] + more);
  }

  lemma {:induction false} MathKills(first: H.Expr, rest: seq<H.Term>, n: nat)
    ensures Kills(LowerExpr(H.Math(first, rest), n))
    decreases H.Math(first, rest), 0
  {
    hide Killed, Loose, LowerPushed, LowerTerms, Follows;
    var f := LowerPushed(first, n);
    var r := LowerTerms(rest, [], f.next);
    PopFollows([]);
    assert [Pop(T1)] + [] == [Pop(T1)];
    TermsBefore(rest, [], f.next, [Pop(T1)]);
    PushedBefore(first, n, r.code + [Pop(T1)]);
    assert f.code + (r.code + [Pop(T1)]) == f.code + r.code + [Pop(T1)];
    FollowsSettled(f.code + r.code, Pop(T1));
  }

  // ----- Conditions -----

  lemma {:induction false} ComparisonKills(c: H.Comparison, n: nat)
    ensures var x := LowerComparison(c, n).code; Settled(x) && Killed(x, 0) && x != []
    decreases c, 0
  {
    hide Killed, Loose, LowerPushed, Follows;
    var l := LowerPushed(c.lhs, n);
    var r := LowerPushed(c.rhs, l.next);
    var tail := ComparisonTail(c.op);
    ComparisonTailFollows(c.op);
    PushedBefore(c.rhs, l.next, tail);
    PushedBefore(c.lhs, n, r.code + tail);
    assert l.code + (r.code + tail) == l.code + r.code + tail;
    var last := Instr(CompareOpcode(c.op), T1, T1);
    assert tail == tail[..3] + [last];
    assert l.code + r.code + tail == (l.code + r.code + tail[..3]) + [last];
    FollowsSettled(l.code + r.code + tail[..3], last);
  }

  lemma ComparisonTailFollows(op: H.CompareToken)
    ensures Follows(ComparisonTail(op))
  {
    var tail := ComparisonTail(op);
    NoPushes(tail);
    assert Killed(tail, 1);
  }

  lemma JoinLoose(useAnd: bool, links: seq<H.Link>, trueLabel: nat, falseLabel: nat, tail: seq<Instr>)
    requires Follows(tail)
    ensures Loose(Join(useAnd, links, trueLabel, falseLabel) + tail)
  {
    hide Killed;
    var join := Join(useAnd, links, trueLabel, falseLabel);
    LooseThen(join, tail);
  }

  lemma {:induction false} LinksBefore(links: seq<H.Link>, n: nat, trueLabel: nat, falseLabel: nat, tail: seq<Instr>)
    requires Follows(tail)
    ensures Follows(LowerLinks(links, n, trueLabel, falseLabel).code + tail)
    decreases links
  {
    hide Killed, Loose, LowerComparison, Join;
    if links != [] {
      var link: H.Link := links[0];
      var comparison := link.comparison;
      assert comparison < link;
      var c := LowerComparison(comparison, n);
      var join := Join(link.chain.BoolAnd?, links[1..], trueLabel, falseLabel);
      var more := LowerLinks(links[1..], c.next, trueLabel, falseLabel);
      LinksBefore(links[1..], c.next, trueLabel, falseLabel, tail);
      JoinLoose(link.chain.BoolAnd?, links[1..], trueLabel, falseLabel, more.code + tail);
      ComparisonKills(comparison, n);
      LooseThen(c.code, join + (more.code + tail));
      KilledFirst(c.code, join + (more.code + tail), 0);
      Associate4(c.code, join, more.code, tail);
    } else {
      assert LowerLinks(links, n, trueLabel, falseLabel).code + tail == tail;
    }
  }

  lemma ConditionTailFollows(trueLabel: nat, falseLabel: nat, doneLabel: nat)
    ensures Follows(ConditionTail(trueLabel, falseLabel, doneLabel))
  {
    var tail := ConditionTail(trueLabel, falseLabel, doneLabel);
    NoPushes(tail);
    TwoKilled(tail);
  }

  lemma {:induction false} ConditionKills(head: H.Comparison, links: seq<H.Link>, n: nat)
    ensures Kills(LowerExpr(H.Condition(head, links), n))
    decreases H.Condition(head, links), 0
  {
    hide Killed, Loose, LowerComparison, LowerLinks, Join, Follows, ConditionTail;
    if links == [] {
      ComparisonKills(head, n + 1);
    } else {
      var c := LowerComparison(head, n + 2);
      var r := LowerLinks(links, c.next, n, n + 1);
      var tail := ConditionTail(n, n + 1, r.next);
      var join := Join(false, links, n, n + 1);
      ConditionTailFollows(n, n + 1, r.next);
      LinksBefore(links, c.next, n, n + 1, tail);
      JoinLoose(false, links, n, n + 1, r.code + tail);
      ComparisonKills(head, n + 2);
      ChainFollows(c.code, join, r.code, tail);
      ConditionTailEnds(n, n + 1, r.next);
      ConditionShape(c.code, join, r.code, tail);
      SettledEnd(LowerExpr(H.Condition(head, links), n).code);
    }
  }

  lemma ChainFollows(c: seq<Instr>, join: seq<Instr>, r: seq<Instr>, tail: seq<Instr>)
    requires Settled(c) && c != [] && Killed(c, 0) && Loose(join + (r + tail))
    ensures Follows([Load(T1, Imm(0)), Push(T1)] + (c + (join + (r + tail))))
  {
    hide Killed, Loose;
    LooseThen(c, join + (r + tail));
    KilledFirst(c, join + (r + tail), 0);
    LoadPush(Imm(0), c + (join + (r + tail)));
  }

  lemma ConditionShape(c: seq<Instr>, join: seq<Instr>, r: seq<Instr>, tail: seq<Instr>)
    requires tail != []
    ensures var code := [Load(T1, Imm(0)), Push(T1)] + c + join + r + tail;
      code == [Load(T1, Imm(0)), Push(T1)] + (c + (join + (r + tail))) && code[|code| - 1] == tail[|tail| - 1]
  {
  }

  lemma ConditionTailEnds(trueLabel: nat, falseLabel: nat, doneLabel: nat)
    ensures var tail := ConditionTail(trueLabel, falseLabel, doneLabel); tail != [] && !tail[|tail| - 1].op.PUSH?
  {
  }

  lemma SettledEnd(code: seq<Instr>)
    requires Follows(code) && code != [] && !code[|code| - 1].op.PUSH?
    ensures Settled(code) && Killed(code, 0)
  {
    hide Killed, Loose;
  }

  // ----- Calls -----

  lemma {:induction false} StoresBefore(es: seq<H.Expr>, total: nat, tail: seq<Instr>)
    requires Follows(tail)
    ensures Follows(StoreComplexArguments(es, total) + tail)
    decreases |es|
  {
    hide Follows, H.IsComplex;
    if es == [] {
      assert StoreComplexArguments(es, total) + tail == tail;
    } else {
      var i := |es| - 1;
      var before := StoreComplexArguments(es[..i], total);
      if H.IsComplex(es[i]) {
        var own := [Pop(T1), StoreArgument(i, total)];
        PopStoreFollows(i, total, tail);
        StoresBefore(es[..i], total, own + tail);
        assert before + own + tail == before + (own + tail);
      } else {
        StoresBefore(es[..i], total, tail);
        assert before + [] + tail == before + tail;
      }
    }
  }

  lemma PopStoreFollows(i: nat, total: nat, tail: seq<Instr>)
    requires Follows(tail)
    ensures Follows([Pop(T1), StoreArgument(i, total)] + tail)
  {
    hide Killed;
    var own := [Pop(T1), StoreArgument(i, total)];
    TwoKilled(own);
    LooseThen(own, tail);
    KilledFirst(own, tail, 0);
  }

  lemma {:induction false} PlainBefore(es: seq<H.Expr>, total: nat, n: nat, tail: seq<Instr>)
    requires Follows(tail)
    ensures Follows(LowerPlainArguments(es, total, n).code + tail)
    decreases es, 0
  {
    hide Follows, LowerExpr, H.IsComplex, Kills, Settled, Killed;
    if es == [] {
      assert LowerPlainArguments(es, total, n).code + tail == tail;
    } else {
      var last := es[|es| - 1];
      if H.IsComplex(last) {
        PlainBefore(es[..|es| - 1], total, n, tail);
      } else {
        var x := LowerExpr(last, n);
        var more := LowerPlainArguments(es[..|es| - 1], total, x.next);
        var store := StoreArgument(|es| - 1, total);
        PlainBefore(es[..|es| - 1], total, x.next, tail);
        ExprKills(last, n);
        LoadedKills(x, [store]);
        var own := x.code + [Load(T1, x.operand), store];
        StartThen(own, more.code + tail);
        assert own + (more.code + tail) == own + more.code + tail;
      }
    }
  }

  lemma {:induction false} ComplexBefore(es: seq<H.Expr>, n: nat, tail: seq<Instr>)
    requires Follows(tail)
    ensures Follows(LowerComplexArguments(es, n).code + tail)
    decreases es, 0
  {
    hide Follows, LowerPushed, H.IsComplex;
    if es == [] {
      assert LowerComplexArguments(es, n).code + tail == tail;
    } else {
      var last := es[|es| - 1];
      if !H.IsComplex(last) {
        ComplexBefore(es[..|es| - 1], n, tail);
      } else {
        var x := LowerPushed(last, n);
        var more := LowerComplexArguments(es[..|es| - 1], x.next);
        ComplexBefore(es[..|es| - 1], x.next, tail);
        PushedBefore(last, n, more.code + tail);
        assert x.code + (more.code + tail) == x.code + more.code + tail;
      }
    }
  }

  lemma {:induction false} CallKills(callee: nat, arguments: seq<H.Expr>, n: nat)
    ensures Kills(LowerExpr(H.Call(callee, arguments), n))
    decreases arguments, 1
  {
    hide Killed, Loose, Follows, LowerComplexArguments, LowerPlainArguments, StoreComplexArguments;
    var total := |arguments|;
    var a := LowerComplexArguments(arguments, n);
    var b := LowerPlainArguments(arguments, total, a.next);
    var s := StoreComplexArguments(arguments, total);
    var call := CallInstr(callee, total);
    CallFollows(callee, total);
    PlainBefore(arguments, total, a.next, [call]);
    StoresBefore(arguments, total, b.code + [call]);
    ComplexBefore(arguments, n, s + (b.code + [call]));
    Associate4(a.code, s, b.code, [call]);
    FollowsSettled(a.code + s + b.code, call);
  }

  lemma CallFollows(callee: nat, total: nat)
    ensures Follows([CallInstr(callee, total)]) && !CallInstr(callee, total).op.PUSH?
  {
  }

  // ----- Statements -----

  lemma ExprSettled(e: H.Expr, n: nat, more: seq<Instr>)
    requires Settled(more)
    ensures Settled(LowerExpr(e, n).code + more)
  {
    hide Settled, LowerExpr, Killed;
    ExprKills(e, n);
    SettledThen(LowerExpr(e, n).code, more);
  }

  lemma InitializerSettled(e: Option<H.Expr>, n: nat, more: seq<Instr>)
    requires Settled(more)
    ensures Settled(LowerInitializer(e, n).code + more)
  {
    hide Settled, LowerExpr;
    if e.Some? {
      ExprSettled(e.value, n, more);
    } else {
      assert LowerInitializer(e, n).code + more == more;
    }
  }

  lemma MarkersSettled(code: seq<Instr>, more: seq<Instr>)
    requires Settled(more) && forall i :: 0 <= i < |code| ==> !code[i].op.PUSH?
    ensures Settled(code + more)
  {
    hide Killed;
    NoPushes(code);
    SettledThen(code, more);
  }

  lemma {:induction false} BlockSettled(ss: seq<H.Stmt>, n: nat, b: nat, c: nat, more: seq<Instr>)
    requires Settled(more)
    ensures Settled(LowerBlock(ss, n, b, c).code + more)
    decreases ss, 2
  {
    hide Settled, LowerAll;
    var all := LowerAll(ss, n, b, c);
    MarkersSettled([EndBlock(false)], more);
    AllSettled(ss, n, b, c, [EndBlock(false)] + more);
    MarkersSettled([StartBlock()], all.code + ([EndBlock(false)] + more));
    Associate4([StartBlock()], all.code, [EndBlock(false)], more);
  }

  lemma {:induction false} AllSettled(ss: seq<H.Stmt>, n: nat, b: nat, c: nat, more: seq<Instr>)
    requires Settled(more)
    ensures Settled(LowerAll(ss, n, b, c).code + more)
    decreases ss, 1
  {
    hide Settled, LowerStmt;
    if ss == [] {
      assert LowerAll(ss, n, b, c).code + more == more;
    } else {
      var s := LowerStmt(ss[0], n, b, c);
      var rest := LowerAll(ss[1..], s.next, b, c);
      AllSettled(ss[1..], s.next, b, c, more);
      StmtSettled(ss[0], n, b, c);
      SettledThen(s.code, rest.code + more);
      assert s.code + (rest.code + more) == s.code + rest.code + more;
    }
  }

  lemma {:induction false} StmtSettled(s: H.Stmt, n: nat, b: nat, c: nat)
    ensures Settled(LowerStmt(s, n, b, c).code)
    decreases s, 1
  {
    hide Settled, LowerExpr, LowerBlock, LowerInitializer, LowerPushed, AdvanceTail;
    match s
    case Skip => NoPushes([]);
    case Block(body) =>
      NoPushes([]);
      BlockSettled(body, n, b, c, []);
      assert LowerBlock(body, n, b, c).code + [] == LowerBlock(body, n, b, c).code;
    case Declare(uid, initial) =>
      if initial.None? {
        NoPushes([Store(Local(uid), Nothing)]);
      } else {
        StoredSettled(initial.value, uid, n);
      }
    case Assign(uid, value) => StoredSettled(value, uid, n);
    case CallStmt(callee, arguments) => ExprKills(H.Call(callee, arguments), n);
    case If(condition, body, otherwise) => IfSettled(condition, body, otherwise, n, b, c);
    case While(condition, body, doFirst) => WhileSettled(condition, body, doFirst, n, b, c);
    case For(_, _, _, _, _, _) => ForSettled(s, n, b, c);
    case Break => NoPushes([EndBlock(true), Jump(b)]);
    case Continue => NoPushes([EndBlock(true), Jump(c)]);
    case Return(result) =>
      var x := LowerInitializer(result, n);
      NoPushes([Instr(RETURN, Nothing, x.operand)]);
      InitializerSettled(result, n, [Instr(RETURN, Nothing, x.operand)]);
  }

  lemma StoredSettled(e: H.Expr, uid: nat, n: nat)
    ensures Settled(LowerStored(e, uid, n).code)
  {
    hide Settled, LowerExpr;
    var tail := [Load(T1, LowerExpr(e, n).operand), Store(Local(uid), T1)];
    NoPushes(tail);
    ExprSettled(e, n, tail);
  }

  lemma {:induction false} IfSettled(condition: H.Expr, body: seq<H.Stmt>, otherwise: seq<H.Stmt>, n: nat, b: nat,
                                     c: nat)
    ensures Settled(LowerStmt(H.If(condition, body, otherwise), n, b, c).code)
    decreases H.If(condition, body, otherwise), 0
  {
    hide Settled, LowerExpr, LowerBlock;
    var x := LowerExpr(condition, if otherwise == [] then n + 1 else n + 2);
    var y := LowerBlock(body, x.next, b, c);
    var test := [Load(T1, x.operand), JumpFalse(n)];
    if otherwise == [] {
      NoPushes([NewLabel(n)]);
      BlockSettled(body, x.next, b, c, [NewLabel(n)]);
      MarkersSettled(test, y.code + [NewLabel(n)]);
      ExprSettled(condition, n + 1, test + (y.code + [NewLabel(n)]));
      Associate4(x.code, test, y.code, [NewLabel(n)]);
    } else {
      var z := LowerBlock(otherwise, y.next, b, c);
      var middle := [Jump(n + 1), NewLabel(n)];
      var rest := middle + (z.code + [NewLabel(n + 1)]);
      NoPushes([NewLabel(n + 1)]);
      BlockSettled(otherwise, y.next, b, c, [NewLabel(n + 1)]);
      MarkersSettled(middle, z.code + [NewLabel(n + 1)]);
      BlockSettled(body, x.next, b, c, rest);
      MarkersSettled(test, y.code + rest);
      ExprSettled(condition, n + 2, test + (y.code + rest));
      Associate6(x.code, test, y.code, middle, z.code, [NewLabel(n + 1)]);
    }
  }

  lemma Associate6(a: seq<Instr>, b: seq<Instr>, c: seq<Instr>, d: seq<Instr>, e: seq<Instr>, f: seq<Instr>)
    ensures a + b + c + d + e + f == a + (b + (c + (d + (e + f))))
  {
    Associate4(a + b, c, d, e + f);
    Associate4(a + b + c + d, e, f, []);
    assert a + b + c + d + e + f == a + b + c + d + (e + f);
    Associate4(a, b, c + (d + (e + f)), []);
  }

  lemma Associate5(a: seq<Instr>, b: seq<Instr>, c: seq<Instr>, d: seq<Instr>, e: seq<Instr>)
    ensures a + b + c + d + e == a + (b + (c + (d + e)))
  {
    Associate4(a, b, c, d + e);
  }

  lemma {:induction false} WhileSettled(condition: H.Expr, body: seq<H.Stmt>, doFirst: bool, n: nat, b: nat, c: nat)
    ensures Settled(LowerStmt(H.While(condition, body, doFirst), n, b, c).code)
    decreases H.While(condition, body, doFirst), 0
  {
    hide Settled, LowerExpr, LowerBlock;
    if doFirst {
      var y := LowerBlock(body, n + 3, n + 2, n);
      var x := LowerExpr(condition, y.next);
      var test := [Load(T1, x.operand), JumpTrue(n + 1), NewLabel(n + 2)];
      NoPushes(test);
      ExprSettled(condition, y.next, test);
      MarkersSettled([NewLabel(n)], x.code + test);
      BlockSettled(body, n + 3, n + 2, n, [NewLabel(n)] + (x.code + test));
      MarkersSettled([NewLabel(n + 1)], y.code + ([NewLabel(n)] + (x.code + test)));
      Associate5([NewLabel(n + 1)], y.code, [NewLabel(n)], x.code, test);
    } else {
      var x := LowerExpr(condition, n + 3);
      var y := LowerBlock(body, x.next, n + 2, n);
      var test := [Load(T1, x.operand), JumpFalse(n + 2), NewLabel(n + 1)];
      var end := [Instr(JMP, Label(n), T1), NewLabel(n + 2)];
      NoPushes(end);
      BlockSettled(body, x.next, n + 2, n, end);
      MarkersSettled(test, y.code + end);
      ExprSettled(condition, n + 3, test + (y.code + end));
      MarkersSettled([NewLabel(n)], x.code + (test + (y.code + end)));
      Associate5([NewLabel(n)], x.code, test, y.code, end);
    }
  }

  lemma AdvanceSettled(counter: nat, increment: H.Expr, decrement: bool, n: nat, next: nat, end: seq<Instr>)
    requires Settled(end)
    ensures Settled([NewLabel(n + 1), Load(T1, Local(counter)), Push(T1)] + LowerPushed(increment, next).code
                    + AdvanceTail(counter, decrement, n) + end)
  {
    hide Killed, LowerPushed;
    var head := [NewLabel(n + 1), Load(T1, Local(counter)), Push(T1)];
    var tail := AdvanceTail(counter, decrement, n);
    AdvanceFollows(counter, decrement, n);
    PushedBefore(increment, next, tail);
    var step := LowerPushed(increment, next).code + tail;
    LooseThen(head, step);
    LooseThen(head + step, end);
    assert head + LowerPushed(increment, next).code + tail == head + step;
    assert (head + step)[|head + step| - 1] == tail[|tail| - 1];
  }

  lemma AdvanceFollows(counter: nat, decrement: bool, n: nat)
    ensures var tail := AdvanceTail(counter, decrement, n);
      Follows(tail) && |tail| == 5 && !tail[4].op.PUSH?
  {
    var tail := AdvanceTail(counter, decrement, n);
    NoPushes(tail);
    assert Killed(tail, 1);
  }

  lemma {:induction false} ForSettled(s: H.Stmt, n: nat, b: nat, c: nat)
    requires s.For?
    ensures Settled(LowerStmt(s, n, b, c).code)
    decreases s, 0
  {
    hide Settled, LowerExpr, LowerBlock, LowerInitializer, LowerPushed, AdvanceTail;
    var i := LowerInitializer(s.initializer, n + 3);
    var x := LowerExpr(s.condition, i.next);
    var y := LowerBlock(s.body, x.next, n + 2, n + 1);
    var step := LowerPushed(s.increment, y.next);
    var end := [NewLabel(n + 2), Instr(END_BLOCK, Nothing, Nothing)];
    var head := [NewLabel(n + 1), Load(T1, Local(s.counter)), Push(T1)];
    var tail := AdvanceTail(s.counter, s.decrement, n);
    var turn := head + step.code + tail + end;
    NoPushes(end);
    AdvanceSettled(s.counter, s.increment, s.decrement, n, y.next, end);
    BlockSettled(s.body, x.next, n + 2, n + 1, turn);
    var test := [Load(T1, x.operand), JumpFalse(n + 2)];
    MarkersSettled(test, y.code + turn);
    ExprSettled(s.condition, i.next, test + (y.code + turn));
    var first := [Load(T1, i.operand), Store(Local(s.counter), T1), NewLabel(n)];
    MarkersSettled(first, x.code + (test + (y.code + turn)));
    InitializerSettled(s.initializer, n + 3, first + (x.code + (test + (y.code + turn))));
    MarkersSettled([StartBlock()], i.code + (first + (x.code + (test + (y.code + turn)))));
    ForShape(i.code, first, x.code, test, y.code, head, step.code, tail, end);
  }

  lemma ForShape(i: seq<Instr>, first: seq<Instr>, x: seq<Instr>, test: seq<Instr>, y: seq<Instr>,
                 head: seq<Instr>, step: seq<Instr>, tail: seq<Instr>, end: seq<Instr>)
    ensures [StartBlock()] + i + first + x + test + y + head + step + tail + end
      == [StartBlock()] + (i + (first + (x + (test + (y + (head + step + tail + end))))))
  {
    var a := [StartBlock()] + i + first + x + test + y;
    Associate6([StartBlock()], i, first, x, test, y + (head + step + tail + end));
    Associate5(a, head, step, tail, end);
    Associate4(head, step, tail, end);
    assert a + (head + (step + (tail + end)))
        == [StartBlock()] + i + first + x + test + (y + (head + step + tail + end));
  }

  // ----- Functions and the optimizer's rule -----

  /** Every push is followed by code that overwrites `t1` before it uses it. */
  predicate PushesKill(prog: seq<Instr>) {
    forall k :: 0 <= k < |prog| && prog[k].op.PUSH? ==> Killed(prog, k + 1)
  }

  /** Holds of every lowered function, whatever its statements. */
  lemma FunctionPushesKill(name: nat, parameters: seq<nat>, body: seq<H.Stmt>)
    ensures PushesKill(LowerFunction(name, parameters, body) + [END])
  {
    hide Killed, LowerAll, LowerParameters;
    var start := Instr(START_FUNC, Nothing, Function(name));
    var finish := Instr(END_FUNC, Nothing, Function(name));
    var store := LowerParameters(parameters, |parameters|);
    NoPushes([finish, END]);
    AllSettled(body, 0, 0, 0, [finish, END]);
    ParametersDoNotPush(parameters, |parameters|);
    MarkersSettled(store, LowerAll(body, 0, 0, 0).code + [finish, END]);
    MarkersSettled([start], store + (LowerAll(body, 0, 0, 0).code + [finish, END]));
    assert LowerFunction(name, parameters, body) + [END]
        == [start] + (store + (LowerAll(body, 0, 0, 0).code + [finish, END]));
  }

  lemma {:induction false} ParametersDoNotPush(uids: seq<nat>, total: nat)
    ensures forall i :: 0 <= i < |LowerParameters(uids, total)| ==> !LowerParameters(uids, total)[i].op.PUSH?
    decreases |uids|
  {
    if uids != [] {
      ParametersDoNotPush(uids[..|uids| - 1], total);
    }
  }

  lemma {:induction false} KilledIsDead(prog: seq<Instr>, k: nat)
    requires Killed(prog, k)
    ensures Dead(prog, k, Accumulator)
    decreases |prog| - k
  {
    hide Uses, Overwrites, Dead;
    if !Overwrites(prog[k], Accumulator) {
      KilledIsDead(prog, k + 1);
    }
    DeadOnward(prog, k, Accumulator);
    DeadHere(prog, k, Accumulator);
  }

  /** A place where the rule load t1, x; push t1 -> push x may fire. */
  predicate PushWindow(prog: seq<Instr>, t: nat, n: nat) {
    && t < n < |prog| && Blank(prog, t, n)
    && prog[t].op.LOAD? && prog[t].dst == T1 && !prog[t].src.Register? && !prog[t].src.Nothing?
    && prog[n] == Push(T1)
  }

  /** The side condition of the rule holds wherever pushes kill. */
  lemma PushWindowForwards(prog: seq<Instr>, t: nat, n: nat)
    requires PushesKill(prog) && PushWindow(prog, t, n)
    ensures CanForward(prog, n, prog[t])
  {
    hide Killed;
    KilledIsDead(prog, n + 1);
    DeadOnward(prog, n, Accumulator);
  }

  /** And the rewrite leaves it so. */
  lemma ForwardingStaysKilled(prog: seq<Instr>, t: nat, n: nat)
    requires PushesKill(prog) && PushWindow(prog, t, n)
    ensures PushesKill(Forward(prog, t, n).prog)
  {
    hide Killed;
    var after := Forward(prog, t, n).prog;
    ForwardedWindow(prog, t, n);
    forall k | 0 <= k < |after| && after[k].op.PUSH?
      ensures Killed(after, k + 1)
    {
      assert prog[k].op.PUSH?;
      assert Killed(prog, n + 1) && Killed(prog, k + 1);
      KilledAfter(prog, after, t, n, k + 1);
    }
  }

  lemma ForwardedWindow(prog: seq<Instr>, t: nat, n: nat)
    requires PushWindow(prog, t, n)
    ensures var after := Forward(prog, t, n).prog;
      && |after| == |prog| && after[t].op.NOP? && after[n].op.PUSH? && !Uses(after[n], Accumulator)
      && (forall i :: 0 <= i < |prog| && i != t && i != n ==> after[i] == prog[i])
      && (forall i :: t < i < n ==> after[i].op.NOP?)
      && (forall i :: 0 <= i < |prog| && after[i].op.PUSH? ==> prog[i].op.PUSH?)
  {
  }

  lemma {:induction false} KilledAfter(prog: seq<Instr>, after: seq<Instr>, t: nat, n: nat, k: nat)
    requires t < n < |prog| == |after| && Killed(prog, k) && Killed(prog, n + 1)
    requires after[t].op.NOP? && after[n].op.PUSH? && !Uses(after[n], Accumulator)
    requires forall i :: 0 <= i < |prog| && i != t && i != n ==> after[i] == prog[i]
    requires forall i :: t < i < n ==> after[i].op.NOP?
    requires prog[n].op.PUSH?
    ensures Killed(after, k)
    decreases |prog| - k
  {
    if k > n {
      if !Overwrites(prog[k], Accumulator) {
        KilledAfter(prog, after, t, n, k + 1);
      }
    } else if t <= k {
      KilledAfter(prog, after, t, n, n + 1);
      KilledThroughBlank(after, t, n, k);
    } else if !Overwrites(prog[k], Accumulator) {
      KilledAfter(prog, after, t, n, k + 1);
    }
  }

  lemma {:induction false} KilledThroughBlank(after: seq<Instr>, t: nat, n: nat, k: nat)
    requires t <= k <= n < |after| && Killed(after, n + 1)
    requires after[t].op.NOP? && after[n].op.PUSH? && !Uses(after[n], Accumulator)
    requires forall i :: t < i < n ==> after[i].op.NOP?
    ensures Killed(after, k)
    decreases n - k
  {
    if k < n {
      KilledThroughBlank(after, t, n, k + 1);
    }
  }

  /** The rule applied at a list of places, one after the other; places where it does not fit are left. */
  ghost function ForwardPushes(prog: seq<Instr>, places: seq<(nat, nat)>): (r: seq<Instr>)
    decreases |places|
  {
    if places == [] then prog
    else
      var (t, n) := places[0];
      ForwardPushes(if PushWindow(prog, t, n) then Forward(prog, t, n).prog else prog, places[1..])
  }

  lemma {:induction false} ForwardPushesKeep(prog: seq<Instr>, places: seq<(nat, nat)>)
    requires PushesKill(prog)
    ensures SameBehaviour(prog, ForwardPushes(prog, places))
    decreases |places|
  {
    hide SameBehaviour, PushesKill, PushWindow, CanForward, Forward;
    if places == [] {
      BehaviourReflexive(prog);
    } else {
      var (t, n) := places[0];
      if PushWindow(prog, t, n) {
        WindowShape(prog, t, n);
        var next := Forward(prog, t, n).prog;
        PushWindowForwards(prog, t, n);
        ForwardingStaysKilled(prog, t, n);
        OptimizerProof.ForwardKeeps(prog, t, n);
        ForwardPushesKeep(next, places[1..]);
        BehaviourTransitive(prog, next, ForwardPushes(next, places[1..]));
      } else {
        ForwardPushesKeep(prog, places[1..]);
      }
    }
  }

  lemma WindowShape(prog: seq<Instr>, t: nat, n: nat)
    requires PushWindow(prog, t, n)
    ensures t < n < |prog| && Blank(prog, t, n) && IsMove(prog[t].op)
  {
  }

  /** In the code of any function, pushing loaded values straight from their place, wherever and in
      whatever order, changes no behaviour. */
  lemma PushForwardingIsSafe(name: nat, parameters: seq<nat>, body: seq<H.Stmt>, places: seq<(nat, nat)>)
    ensures var prog := LowerFunction(name, parameters, body) + [END];
      SameBehaviour(prog, ForwardPushes(prog, places))
  {
    hide SameBehaviour, PushesKill, LowerFunction, ForwardPushes;
    FunctionPushesKill(name, parameters, body);
    ForwardPushesKeep(LowerFunction(name, parameters, body) + [END], places);
  }
}
