/** How deep expressions stack, and calls whose arguments do not survive. */
module ExprLimits {
  import opened Words
  import opened Environment
  import opened Lir
  import opened Lowering
  import opened Runs
  import opened Fragments
  import opened ExprSim
  import L = Liveness
  import H = Hir

  // ----- The operand stack -----

  predicate CallFree(e: H.Expr) {
    match e
    case Literal(_) => true
    case Variable(_) => true
    case Math(first, rest) => CallFree(first) && forall i :: 0 <= i < |rest| ==> CallFree(rest[i].operand)
    case Condition(head, links) =>
      && CallFree(head.lhs) && CallFree(head.rhs)
      && forall i :: 0 <= i < |links| ==> CallFree(links[i].comparison.lhs) && CallFree(links[i].comparison.rhs)
    case Unary(_, operand) => CallFree(operand)
    case Cast(value) => CallFree(value)
    case Call(_, _) => false
  }

  /** The number of nested levels of math and conditions. */
  function Depth(e: H.Expr): nat
    decreases e, 0
  {
    match e
    case Math(first, rest) => 1 + Max(Depth(first), TermDepth(rest))
    case Condition(head, links) => 1 + Max(Max(Depth(head.lhs), Depth(head.rhs)), LinkDepth(links))
    case Unary(_, operand) => Depth(operand)
    case Cast(value) => Depth(value)
    case _ => 0
  }

  function TermDepth(rest: seq<H.Term>): nat
    decreases rest
  {
    if rest == [] then 0
    else
      var term: H.Term := rest[0];
      var operand := term.operand;
      assert operand < term;
      Max(Depth(operand), TermDepth(rest[1..]))
  }

  function LinkDepth(links: seq<H.Link>): nat
    decreases links
  {
    if links == [] then 0
    else
      var link: H.Link := links[0];
      var comparison := link.comparison;
      assert comparison < link;
      Max(Max(Depth(comparison.lhs), Depth(comparison.rhs)), LinkDepth(links[1..]))
  }

  lemma {:induction false} SlotsByDepth(e: H.Expr)
    requires CallFree(e)
    ensures PushedSlots(e) <= 3 * Depth(e) + 1
    decreases e, 0
  {
    match e
    case Math(first, rest) =>
      SlotsByDepth(first);
      TermSlotsByDepth(rest);
    case Condition(head, links) =>
      SlotsByDepth(head.lhs);
      SlotsByDepth(head.rhs);
      LinkSlotsByDepth(links);
      var d := Max(Max(Depth(head.lhs), Depth(head.rhs)), LinkDepth(links));
      assert ComparisonSlots(head) <= 3 * d + 1 && LinkSlots(links) <= 3 * d + 1;
      assert Slots(e) == 2 + Max(ComparisonSlots(head), LinkSlots(links));
    case Unary(_, operand) => SlotsByDepth(operand);
    case Cast(value) => SlotsByDepth(value);
    case _ =>
  }

  lemma {:induction false} TermSlotsByDepth(rest: seq<H.Term>)
    requires forall i :: 0 <= i < |rest| ==> CallFree(rest[i].operand)
    ensures TermSlots(rest) <= 3 * TermDepth(rest) + 1
    decreases rest
  {
    hide PushedSlots, Depth;
    if rest != [] {
      var term: H.Term := rest[0];
      var operand := term.operand;
      assert operand < term;
      SlotsByDepth(operand);
      TermSlotsByDepth(rest[1..]);
    }
  }

  lemma {:induction false} LinkSlotsByDepth(links: seq<H.Link>)
    requires forall i :: 0 <= i < |links| ==> CallFree(links[i].comparison.lhs) && CallFree(links[i].comparison.rhs)
    ensures LinkSlots(links) <= 3 * LinkDepth(links) + 1
    decreases links
  {
    hide PushedSlots, Depth;
    if links != [] {
      var link: H.Link := links[0];
      var comparison := link.comparison;
      assert comparison < link;
      SlotsByDepth(comparison.lhs);
      SlotsByDepth(comparison.rhs);
      LinkSlotsByDepth(links[1..]);
    }
  }

  /** Whatever its size, an expression without calls that nests d levels deep never takes more than
      3d + 1 operand slots, and never goes below where it started. */
  lemma StackByDepth(prog: seq<Instr>, w: World, m: Machine, e: H.Expr, n: nat) returns (k: nat)
    requires H.ExprOk(e) && CallFree(e) && Ready(prog, m, LowerExpr(e, n).code)
    ensures Inside(prog, w, m, k, |m.stack|, |m.stack| + 3 * Depth(e) + 1)
    ensures var x := LowerExpr(e, n);
      Evaluated(w, m, Run(prog, w, m, k), m.pc + |x.code|, x.operand, H.Eval(w, m.locals, m.trace, e))
  {
    hide Ready, Evaluated, LowerExpr, H.Eval, Inside, H.ExprOk, Depth, Slots, CallFree;
    SlotsByDepth(e);
    SlotsAtMostPushed(e);
    k := SimExpr(prog, w, m, e, n, |m.stack|, |m.stack| + 3 * Depth(e) + 1);
  }

  lemma SlotsAtMostPushed(e: H.Expr)
    ensures Slots(e) <= PushedSlots(e)
  {
    hide Slots;
  }

  // ----- Arguments that do not survive -----

  /** Straight code run from its start. */
  ghost function Straight(w: World, m: Machine, code: seq<Instr>): Machine
    decreases |code|
  {
    if code == [] then m
    else
      var e := Effect(w, m, code[0]);
      if e.status.Running? then Straight(w, e.(pc := m.pc + 1), code[1..]) else e
  }

  ghost predicate NoControl(code: seq<Instr>) {
    forall i :: 0 <= i < |code| ==> !IsControl(code[i].op)
  }

  lemma {:induction false} RunStraight(prog: seq<Instr>, w: World, m: Machine, code: seq<Instr>)
    requires m.status.Running? && m.pc + |code| <= |prog| && prog[m.pc..m.pc + |code|] == code && NoControl(code)
    ensures Run(prog, w, m, |code|) == Straight(w, m, code)
    decreases |code|
  {
    hide Effect;
    if code != [] {
      assert prog[m.pc] == code[0];
      var e := Effect(w, m, code[0]);
      L.EffectKeepsPc(w, m, code[0]);
      assert Step(prog, w, m) == if e.status.Running? then e.(pc := m.pc + 1) else e;
      if e.status.Running? {
        var s := e.(pc := m.pc + 1);
        assert prog[s.pc..s.pc + |code[1..]|] == code[1..];
        RunStraight(prog, w, s, code[1..]);
      } else {
        HaltedStays(prog, w, e, |code| - 1);
      }
    }
  }

  /** Calls return 5 and leave 9 in every register they may change, and so do products. */
  function Outside(): World {
    World(trace => 5, (trace, i) => 9, (pc, product, was) => 9, uid => 0, [])
  }

  function Idle(): Machine {
    Machine(0, 0, [0, 0, 0, 0, 0, 0], [], map[], (0, 0), [], Running)
  }

  lemma StraightStep(w: World, m: Machine, i: Instr, rest: seq<Instr>, m': Machine)
    requires Effect(w, m, i) == m' && m'.status.Running?
    ensures Straight(w, m, [i] + rest) == Straight(w, m'.(pc := m.pc + 1), rest)
  {
    hide Effect;
    assert ([i] + rest)[1..] == rest;
  }

  lemma LoadEffect(w: World, m: Machine, o: Operand, v: Word)
    requires Read(w, m, o) == Some(v)
    ensures Effect(w, m, Load(T1, o)) == m.(t1 := v)
  {
    hide Read;
  }

  lemma StoreEffect(w: World, m: Machine, i: nat, total: nat)
    requires m.Valid()
    ensures Effect(w, m, StoreArgument(i, total)) ==
      if i < MAX_REGISTER_ARGUMENTS then m.(slots := m.slots[i := m.t1]) else m.(stack := m.stack + [m.t1])
  {
  }

  lemma CallEffect(m: Machine, callee: nat, total: nat)
    requires m.Valid() && total <= MAX_REGISTER_ARGUMENTS + |m.stack|
    ensures Effect(Outside(), m, CallInstr(callee, total)) ==
      m.(t1 := 5, slots := [9, 9, 9, 9, 9, 9], compared := (9, 9),
         stack := m.stack[..|m.stack| - if total <= MAX_REGISTER_ARGUMENTS then 0 else total - MAX_REGISTER_ARGUMENTS],
         trace := m.trace + [Event(callee, Outgoing(m, total))])
  {
    hide Outgoing;
    var e := Effect(Outside(), m, CallInstr(callee, total));
    assert e.slots == [9, 9, 9, 9, 9, 9];
  }

  function NegatedCall(): H.Expr {
    H.Unary(H.Negate, H.Call(0, []))
  }

  /** The code of f(-g(), 2). */
  function UnaryCallCode(): seq<Instr> {
    [Load(T1, Imm(2)), StoreArgument(1, 2), CallInstr(0, 0)]
    + ([Load(T1, RESULT), Instr(NEG, T1, Nothing), Load(T1, T1), StoreArgument(0, 2)] + [CallInstr(1, 2)])
  }

  lemma UnaryCallLowers()
    ensures LowerExpr(H.Call(1, [NegatedCall(), H.Literal(2)]), 0).code == UnaryCallCode()
  {
    var g := H.Call(0, []);
    var u := NegatedCall();
    var es := [u, H.Literal(2)];
    assert es[..1] == [u] && [u][..0] == [];
    assert LowerExpr(g, 0) == Lowered([CallInstr(0, 0)], RESULT, 0);
    assert LowerExpr(u, 0).code == [CallInstr(0, 0), Load(T1, RESULT), Instr(NEG, T1, Nothing)];
    PlainUnary();
    assert LowerPlainArguments(es, 2, 0).code
        == [Load(T1, Imm(2)), StoreArgument(1, 2)] + LowerPlainArguments([u], 2, 0).code;
  }

  lemma PlainUnary()
    ensures LowerPlainArguments([NegatedCall()], 2, 0).code
      == [CallInstr(0, 0), Load(T1, RESULT), Instr(NEG, T1, Nothing), Load(T1, T1), StoreArgument(0, 2)]
  {
    var u := NegatedCall();
    assert [u][..0] == [];
    assert LowerExpr(H.Call(0, []), 0) == Lowered([CallInstr(0, 0)], RESULT, 0);
    assert LowerExpr(u, 0).code == [CallInstr(0, 0), Load(T1, RESULT), Instr(NEG, T1, Nothing)];
  }

  lemma UnaryCallRuns()
    ensures Straight(Outside(), Idle(), UnaryCallCode()).trace == [Event(0, []), Event(1, [-5, 9])]
  {
    var w := Outside();
    var rest := [Load(T1, RESULT), Instr(NEG, T1, Nothing), Load(T1, T1), StoreArgument(0, 2)] + [CallInstr(1, 2)];
    var m3 := Machine(3, 5, [9, 9, 9, 9, 9, 9], [], map[], (9, 9), [Event(0, [])], Running);
    FirstCall(rest);
    SecondCall();
  }

  lemma FirstCall(rest: seq<Instr>)
    ensures Straight(Outside(), Idle(), [Load(T1, Imm(2)), StoreArgument(1, 2), CallInstr(0, 0)] + rest)
      == Straight(Outside(), Machine(3, 5, [9, 9, 9, 9, 9, 9], [], map[], (9, 9), [Event(0, [])], Running), rest)
  {
    hide Straight, Effect;
    var w := Outside();
    var m0 := Idle();
    LoadEffect(w, m0, Imm(2), 2);
    var m1 := m0.(t1 := 2, pc := 1);
    StoreEffect(w, m1, 1, 2);
    var m2 := m1.(slots := m1.slots[1 := 2], pc := 2);
    CallEffect(m2, 0, 0);
    StraightStep(w, m0, Load(T1, Imm(2)), [StoreArgument(1, 2), CallInstr(0, 0)] + rest, m0.(t1 := 2));
    StraightStep(w, m1, StoreArgument(1, 2), [CallInstr(0, 0)] + rest, m1.(slots := m1.slots[1 := 2]));
    StraightStep(w, m2, CallInstr(0, 0), rest, Effect(w, m2, CallInstr(0, 0)));
    assert [Load(T1, Imm(2))] + ([StoreArgument(1, 2), CallInstr(0, 0)] + rest)
        == [Load(T1, Imm(2)), StoreArgument(1, 2), CallInstr(0, 0)] + rest;
    assert [StoreArgument(1, 2)] + ([CallInstr(0, 0)] + rest) == [StoreArgument(1, 2), CallInstr(0, 0)] + rest;
    assert m2.slots[..0] == [] && Outgoing(m2, 0) == [] && m2.stack[..0] == [];
    assert m2.trace + [Event(0, [])] == [Event(0, [])];
    assert Effect(w, m2, CallInstr(0, 0)).(pc := 3)
        == Machine(3, 5, [9, 9, 9, 9, 9, 9], [], map[], (9, 9), [Event(0, [])], Running);
  }

  lemma NegateEffect(w: World, m: Machine)
    ensures Effect(w, m, Instr(NEG, T1, Nothing)) == m.(t1 := UnaryResult(NEG, m.t1))
  {
    hide UnaryResult;
  }

  lemma SecondCall()
    ensures Straight(Outside(), Machine(3, 5, [9, 9, 9, 9, 9, 9], [], map[], (9, 9), [Event(0, [])], Running),
                     [Load(T1, RESULT), Instr(NEG, T1, Nothing), Load(T1, T1), StoreArgument(0, 2)] + [CallInstr(1,
                         2)]).trace
      == [Event(0, []), Event(1, [-5, 9])]
  {
    hide Straight, Effect;
    var w := Outside();
    var m := Machine(3, 5, [9, 9, 9, 9, 9, 9], [], map[], (9, 9), [Event(0, [])], Running);
    var m1, m2, m3 := m.(pc := 4), m.(pc := 5, t1 := -5), m.(pc := 6, t1 := -5);
    var m4 := m3.(pc := 7, slots := m3.slots[0 := -5]);
    var i2, i3, i4, i5 := Instr(NEG, T1, Nothing), Load(T1, T1), StoreArgument(0, 2), CallInstr(1, 2);
    LoadEffect(w, m, RESULT, 5);
    NegateEffect(w, m1);
    LoadEffect(w, m2, T1, -5);
    StoreEffect(w, m3, 0, 2);
    CallEffect(m4, 1, 2);
    StraightStep(w, m, Load(T1, RESULT), [i2] + ([i3] + ([i4] + ([i5] + []))), m);
    StraightStep(w, m1, i2, [i3] + ([i4] + ([i5] + [])), m1.(t1 := -5));
    StraightStep(w, m2, i3, [i4] + ([i5] + []), m2);
    StraightStep(w, m3, i4, [i5] + [], m3.(slots := m3.slots[0 := -5]));
    StraightStep(w, m4, i5, [], Effect(w, m4, i5));
    StraightNothing(w, Effect(w, m4, i5).(pc := 8));
    assert [Load(T1, RESULT), i2, i3, i4] + [i5] == [Load(T1, RESULT)] + ([i2] + ([i3] + ([i4] + ([i5] + []))));
    assert m4.slots[..2] == [-5, 9];
  }

  lemma StraightNothing(w: World, m: Machine)
    ensures Straight(w, m, []) == m
  {
  }

  /** f(-g(), 2): the negated call is evaluated after the second argument is in place, and g may
      change that register. */
  lemma UnaryCallClobbers()
    ensures var e := H.Call(1, [NegatedCall(), H.Literal(2)]);
      var code := LowerExpr(e, 0).code;
      && Run(code, Outside(), Idle(), |code|).trace == [Event(0, []), Event(1, [-5, 9])]
      && H.Eval(Outside(), map[], [], e).trace == [Event(0, []), Event(1, [-5, 2])]
  {
    hide Run, Straight, LowerExpr;
    UnaryCallLowers();
    UnaryCallRuns();
    var code := UnaryCallCode();
    assert code[0..0 + |code|] == code;
    RunStraight(code, Outside(), Idle(), code);
    UnaryCallMeans();
  }

  lemma UnaryCallMeans()
    ensures H.Eval(Outside(), map[], [], H.Call(1, [NegatedCall(), H.Literal(2)])).trace
      == [Event(0, []), Event(1, [-5, 2])]
  {
    var w := Outside();
    var u := NegatedCall();
    var es := [u, H.Literal(2)];
    var e := H.Call(1, es);
    assert es[..1] == [u] && [u][..0] == [];
    var g := H.Call(0, []);
    assert H.EvalArguments(w, map[], [], g, [], true) == H.EvalArguments(w, map[], [], g, [], false) == H.Vals([], []);
    assert H.Eval(w, map[], [], g) == H.Val(5, [Event(0, [])]);
    assert H.Eval(w, map[], [], u) == H.Val(-5, [Event(0, [])]);
    assert H.EvalArguments(w, map[], [], e, [u], true) == H.Vals([0], []);
    assert H.EvalArguments(w, map[], [], e, es, true) == H.Vals([0, 0], []);
    assert H.EvalArguments(w, map[], [], e, [u], false) == H.Vals([-5], [Event(0, [])]);
    assert H.EvalArguments(w, map[], [], e, es, false) == H.Vals([-5, 2], [Event(0, [])]);
    assert H.Merged(es, [0, 0], [-5, 2]) == [-5, 2];
  }

  // ----- The complement -----

  /** The low byte of a word negated, the other bytes as they were. */
  function LowNegated(a: Word): (r: int)
    ensures -TWO63 <= r < TWO63
  {
    var low := a % 256;
    LowBytes(a / 256, low, (256 - low) % 256);
    a / 256 * 256 + (256 - low) % 256
  }

  lemma LowBytes(q: int, low: int, n: int)
    requires -TWO63 <= q * 256 + low < TWO63 && 0 <= low < 256 && 0 <= n < 256
    ensures -TWO63 <= q * 256 + n < TWO63
  {
  }

  /** What the backend prints for NOT. */
  function EmittedNot(a: Word): Word {
    LowNegated(a)
  }

  /** It is the complement of no word at all. */
  lemma NotIsNeverComplement(a: Word)
    ensures EmittedNot(a) != UnaryResult(NOT, a)
  {
  }
}
