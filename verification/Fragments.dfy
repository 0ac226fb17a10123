/** Straight-line pieces of lowered code, each with the exact machine it ends in. */
module Fragments {
  import opened Words
  import opened Environment
  import opened Lir
  import opened Lowering
  import opened Runs
  import opened Steps
  import H = Hir

  ghost predicate Ready(prog: seq<Instr>, m: Machine, code: seq<Instr>) {
    UniqueLabels(prog) && At(prog, m.pc, code) && m.status.Running? && m.Valid()
  }

  // ----- Operand slots -----

  function Max(a: nat, b: nat): nat { if a < b then b else a }

  /** The operand slots the code of an expression needs above its starting height. */
  function Slots(e: H.Expr): nat
    decreases e, 0
  {
    match e
    case Literal(_) => 0
    case Variable(_) => 0
    case Math(first, rest) => 3 + Max(PushedSlots(first), TermSlots(rest))
    case Condition(head, links) => 2 + Max(ComparisonSlots(head), LinkSlots(links))
    case Unary(_, operand) => Slots(operand)
    case Cast(value) => Slots(value)
    case Call(_, arguments) => |arguments| + ArgumentSlots(arguments)
  }

  function PushedSlots(e: H.Expr): nat
    decreases e, 1
  {
    Max(Slots(e), 1)
  }

  function TermSlots(rest: seq<H.Term>): nat
    decreases rest
  {
    if rest == [] then 1
    else
      var term: H.Term := rest[0];
      var operand := term.operand;
      assert operand < term;
      Max(PushedSlots(operand), TermSlots(rest[1..]))
  }

  function ComparisonSlots(c: H.Comparison): nat {
    Max(PushedSlots(c.lhs), PushedSlots(c.rhs))
  }

  function LinkSlots(links: seq<H.Link>): nat
    decreases links
  {
    if links == [] then 1
    else
      var link: H.Link := links[0];
      var comparison := link.comparison;
      assert comparison < link;
      Max(ComparisonSlots(comparison), LinkSlots(links[1..]))
  }

  function ArgumentSlots(es: seq<H.Expr>): nat
    decreases es
  {
    if es == [] then 1 else Max(ArgumentSlots(es[..|es| - 1]), PushedSlots(es[|es| - 1]))
  }

  // ----- Straight-line fragments -----

  lemma RunLoadPush(prog: seq<Instr>, w: World, m: Machine, o: Operand, v: Word, low: nat, high: nat)
    returns (k: nat)
    requires Ready(prog, m, [Load(T1, o), Push(T1)]) && Read(w, m, o) == Some(v)
    requires low <= |m.stack| < high
    ensures Run(prog, w, m, k) == m.(pc := m.pc + 2, t1 := v, stack := m.stack + [v])
    ensures Inside(prog, w, m, k, low, high)
  {
    hide Step, Read;
    var code := [Load(T1, o), Push(T1)];
    AtIndex(prog, m.pc, code);
    assert prog[m.pc + 0] == code[0] && prog[m.pc + 1] == code[1];
    k := 0;
    StepLoad(prog, w, m, o, v);
    Extend(prog, w, m, k, low, high);
    k := k + 1;
    StepPush(prog, w, Run(prog, w, m, k));
    Extend(prog, w, m, k, low, high);
    k := k + 1;
  }

  lemma MathOpcodeMeaning(op: H.MathToken, a: Word, b: Word)
    ensures IsMath(MathOpcode(op)) && Alu(MathOpcode(op), a, b) == H.MathMeaning(op, a, b)
  {
  }

  /** The argument registers after an operator. */
  function SlotsAfter(w: World, pc: nat, op: H.MathToken, slots: seq<Word>, a: Word, b: Word): seq<Word>
    requires |slots| == MAX_REGISTER_ARGUMENTS
  {
    var popped := slots[T2_SLOT := b];
    if op.Star? then popped[REMAINDER_SLOT := w.product(pc + 2, Product(a, b), popped[REMAINDER_SLOT])]
    else if (op.Slash? || op.Percent?) && b != 0 then popped[REMAINDER_SLOT := Wrap(TruncMod(a, b))]
    else popped
  }

  lemma RunMath(prog: seq<Instr>, w: World, m: Machine, op: H.MathToken, rest: seq<Word>, a: Word, b: Word,
                low: nat, high: nat)
    returns (k: nat)
    requires Ready(prog, m, DoMathOperation(op)) && m.stack == rest + [a] + [b]
    requires low <= |rest| && |rest| + 2 <= high
    ensures Inside(prog, w, m, k, low, high)
    ensures var x := H.MathMeaning(op, a, b);
      if x.None? then FaultedFrom(m, Run(prog, w, m, k), m.trace)
      else Reached(m, Run(prog, w, m, k), m.pc + 4, rest + [x.value], m.trace)
    ensures H.MathMeaning(op, a, b).Some? ==> Run(prog, w, m, k).slots == SlotsAfter(w, m.pc, op, m.slots, a, b)
  {
    hide Step, Alu, H.MathMeaning, TruncMod, Product;
    var code := DoMathOperation(op);
    AtIndex(prog, m.pc, code);
    assert prog[m.pc + 0] == code[0] && prog[m.pc + 1] == code[1] && prog[m.pc + 2] == code[2];
    assert prog[m.pc + 3] == code[3];
    MathOpcodeMeaning(op, a, b);
    var x := H.MathMeaning(op, a, b);
    k := 0;
    StepPopSecond(prog, w, m, rest + [a], b);
    Extend(prog, w, m, k, low, high);
    k := k + 1;
    StepPopFirst(prog, w, Run(prog, w, m, k), rest, a);
    Extend(prog, w, m, k, low, high);
    k := k + 1;
    StepMath(prog, w, Run(prog, w, m, k), MathOpcode(op), x);
    Extend(prog, w, m, k, low, high);
    k := k + 1;
    if x.Some? {
      StepPush(prog, w, Run(prog, w, m, k));
      Extend(prog, w, m, k, low, high);
      k := k + 1;
    }
  }

  lemma CompareOpcodeMeaning(op: H.CompareToken, a: Word, b: Word)
    ensures IsSet(CompareOpcode(op))
    ensures SetResult(CompareOpcode(op), (a, b)) == FromBool(H.CompareMeaning(op, a, b))
  {
  }

  lemma RunComparison(prog: seq<Instr>, w: World, m: Machine, op: H.CompareToken, rest: seq<Word>, a: Word, b: Word,
                      low: nat, high: nat)
    returns (k: nat)
    requires Ready(prog, m, ComparisonTail(op)) && m.stack == rest + [a] + [b]
    requires low <= |rest| && |rest| + 2 <= high
    ensures Inside(prog, w, m, k, low, high)
    ensures Reached(m, Run(prog, w, m, k), m.pc + 4, rest, m.trace)
    ensures Run(prog, w, m, k).t1 == FromBool(H.CompareMeaning(op, a, b))
  {
    hide Step, SetResult, H.CompareMeaning;
    var code := ComparisonTail(op);
    AtIndex(prog, m.pc, code);
    assert prog[m.pc + 0] == code[0] && prog[m.pc + 1] == code[1] && prog[m.pc + 2] == code[2];
    assert prog[m.pc + 3] == code[3];
    CompareOpcodeMeaning(op, a, b);
    k := 0;
    StepPopSecond(prog, w, m, rest + [a], b);
    Extend(prog, w, m, k, low, high);
    k := k + 1;
    StepPopFirst(prog, w, Run(prog, w, m, k), rest, a);
    Extend(prog, w, m, k, low, high);
    k := k + 1;
    StepCompare(prog, w, Run(prog, w, m, k));
    Extend(prog, w, m, k, low, high);
    k := k + 1;
    StepSet(prog, w, Run(prog, w, m, k), CompareOpcode(op));
    Extend(prog, w, m, k, low, high);
    k := k + 1;
  }

  predicate NextIsOr(links: seq<H.Link>) {
    links != [] && links[0].chain.BoolOr?
  }

  /** After a comparison: leave by one of the two labels, or go on with its value on the stack. */
  lemma RunJoin(prog: seq<Instr>, w: World, m: Machine, rest: seq<Word>, useAnd: bool, links: seq<H.Link>, v: bool,
                trueLabel: nat, falseLabel: nat, atTrue: nat, atFalse: nat, low: nat, high: nat)
    returns (k: nat)
    requires Ready(prog, m, Join(useAnd, links, trueLabel, falseLabel))
    requires Defines(prog, atTrue, trueLabel) && Defines(prog, atFalse, falseLabel)
    requires m.stack == rest + [FromBool(useAnd)] && m.t1 == FromBool(v)
    requires low <= |rest| < high
    ensures Inside(prog, w, m, k, low, high)
    ensures var m' := Run(prog, w, m, k);
      m'.t1 == FromBool(v) &&
      if NextIsOr(links) == v then Reached(m, m', if v then atTrue else atFalse, rest, m.trace)
      else Reached(m, m', m.pc + 4, rest + [FromBool(v)], m.trace)
  {
    hide Step, BitwiseWord;
    var code := Join(useAnd, links, trueLabel, falseLabel);
    AtIndex(prog, m.pc, code);
    assert prog[m.pc + 0] == code[0] && prog[m.pc + 1] == code[1] && prog[m.pc + 2] == code[2];
    assert prog[m.pc + 3] == code[3];
    BitwiseOnBools(v, useAnd);
    k := 0;
    StepPopSecond(prog, w, m, rest, FromBool(useAnd));
    Extend(prog, w, m, k, low, high);
    k := k + 1;
    StepMath(prog, w, Run(prog, w, m, k), if useAnd then AND else OR, Some(FromBool(v)));
    Extend(prog, w, m, k, low, high);
    k := k + 1;
    var m2 := Run(prog, w, m, k);
    if NextIsOr(links) {
      StepJumpIf(prog, w, m2, true, trueLabel, atTrue);
    } else {
      StepJumpIf(prog, w, m2, false, falseLabel, atFalse);
    }
    Extend(prog, w, m, k, low, high);
    k := k + 1;
    if NextIsOr(links) != v {
      StepPush(prog, w, Run(prog, w, m, k));
      Extend(prog, w, m, k, low, high);
      k := k + 1;
    }
  }

  /** From the true label of a condition to its end. */
  lemma RunTrueExit(prog: seq<Instr>, w: World, m: Machine, q: nat, trueLabel: nat, falseLabel: nat, doneLabel: nat,
                    low: nat, high: nat)
    returns (k: nat)
    requires UniqueLabels(prog) && At(prog, q, ConditionTail(trueLabel, falseLabel, doneLabel))
    requires m.status.Running? && m.Valid() && m.pc == q + 1
    requires low <= |m.stack| <= high
    ensures Inside(prog, w, m, k, low, high)
    ensures Run(prog, w, m, k) == m.(pc := q + 6)
  {
    hide Step, UniqueLabels;
    var code := ConditionTail(trueLabel, falseLabel, doneLabel);
    AtIndex(prog, q, code);
    assert prog[q + 1] == code[1] && prog[q + 2] == code[2] && prog[q + 5] == code[5];
    k := 0;
    StepMarker(prog, w, m, NewLabel(trueLabel));
    Extend(prog, w, m, k, low, high);
    k := k + 1;
    StepJump(prog, w, Run(prog, w, m, k), Jump(doneLabel), doneLabel, q + 5);
    Extend(prog, w, m, k, low, high);
    k := k + 1;
    StepMarker(prog, w, Run(prog, w, m, k), NewLabel(doneLabel));
    Extend(prog, w, m, k, low, high);
    k := k + 1;
  }

  /** From the false label of a condition to its end. */
  lemma RunFalseExit(prog: seq<Instr>, w: World, m: Machine, q: nat, trueLabel: nat, falseLabel: nat, doneLabel: nat,
                     low: nat, high: nat)
    returns (k: nat)
    requires At(prog, q, ConditionTail(trueLabel, falseLabel, doneLabel))
    requires m.status.Running? && m.Valid() && m.pc == q + 3
    requires low <= |m.stack| <= high
    ensures Inside(prog, w, m, k, low, high)
    ensures Run(prog, w, m, k) == m.(pc := q + 6, t1 := 0)
  {
    hide Step;
    var code := ConditionTail(trueLabel, falseLabel, doneLabel);
    AtIndex(prog, q, code);
    assert prog[q + 3] == code[3] && prog[q + 4] == code[4] && prog[q + 5] == code[5];
    k := 0;
    StepMarker(prog, w, m, NewLabel(falseLabel));
    Extend(prog, w, m, k, low, high);
    k := k + 1;
    StepLoad(prog, w, Run(prog, w, m, k), Imm(0), 0);
    Extend(prog, w, m, k, low, high);
    k := k + 1;
    StepMarker(prog, w, Run(prog, w, m, k), NewLabel(doneLabel));
    Extend(prog, w, m, k, low, high);
    k := k + 1;
  }

  // ----- Unary operators and casts -----

  lemma UnaryOpcodeMeaning(op: H.UnaryToken, a: Word)
    ensures UnaryOpcode(op).NEG? || UnaryOpcode(op).NOT? || UnaryOpcode(op).BOOL_NOT?
    ensures UnaryResult(UnaryOpcode(op), a) == H.UnaryMeaning(op, a)
  {
  }

  lemma RunLoad(prog: seq<Instr>, w: World, m: Machine, o: Operand, v: Word, low: nat, high: nat)
    returns (k: nat)
    requires Ready(prog, m, [Load(T1, o)]) && Read(w, m, o) == Some(v)
    requires low <= |m.stack| <= high
    ensures Run(prog, w, m, k) == m.(pc := m.pc + 1, t1 := v)
    ensures Inside(prog, w, m, k, low, high)
  {
    hide Step, Read;
    var code := [Load(T1, o)];
    AtIndex(prog, m.pc, code);
    assert prog[m.pc + 0] == code[0];
    k := 0;
    StepLoad(prog, w, m, o, v);
    Extend(prog, w, m, k, low, high);
    k := k + 1;
  }

  lemma RunUnary(prog: seq<Instr>, w: World, m: Machine, op: H.UnaryToken, o: Operand, v: Word, low: nat, high: nat)
    returns (k: nat)
    requires Ready(prog, m, [Load(T1, o), Instr(UnaryOpcode(op), T1, Nothing)]) && Read(w, m, o) == Some(v)
    requires low <= |m.stack| <= high
    ensures Run(prog, w, m, k) == m.(pc := m.pc + 2, t1 := H.UnaryMeaning(op, v))
    ensures Inside(prog, w, m, k, low, high)
  {
    hide Step, Read, H.UnaryMeaning, UnaryResult;
    var code := [Load(T1, o), Instr(UnaryOpcode(op), T1, Nothing)];
    AtIndex(prog, m.pc, code);
    assert prog[m.pc + 0] == code[0] && prog[m.pc + 1] == code[1];
    UnaryOpcodeMeaning(op, v);
    k := 0;
    StepLoad(prog, w, m, o, v);
    Extend(prog, w, m, k, low, high);
    k := k + 1;
    StepUnary(prog, w, Run(prog, w, m, k), UnaryOpcode(op));
    Extend(prog, w, m, k, low, high);
    k := k + 1;
  }
}
