/** Argument passing: values reach their registers or stack places whatever the evaluation of the
    other arguments does to the registers. */
module CallSim {
  import opened Words
  import opened Environment
  import opened Lir
  import opened Lowering
  import opened Runs
  import opened Steps
  import opened Fragments
  import H = Hir

  /** The values of the arguments of one kind from index `from` up, in the order they are pushed. */
  function Picked(es: seq<H.Expr>, vs: seq<Word>, complex: bool, from: nat): seq<Word>
    requires |es| == |vs|
  {
    if es == [] then [] else PickedLast(es, vs, complex, from) + Picked(es[..|es| - 1], vs[..|es| - 1], complex, from)
  }

  /** The last value, if its argument is one of these. */
  function PickedLast(es: seq<H.Expr>, vs: seq<Word>, complex: bool, from: nat): seq<Word>
    requires |es| == |vs| && es != []
  {
    if H.IsComplex(es[|es| - 1]) == complex && |es| - 1 >= from then [vs[|es| - 1]] else []
  }

  /** The number of arguments that are not complex. */
  function Others(es: seq<H.Expr>): nat {
    if es == [] then 0 else Others(es[..|es| - 1]) + if H.IsComplex(es[|es| - 1]) then 0 else 1
  }

  lemma {:induction false} PickedCount(es: seq<H.Expr>, vs: seq<Word>, from: nat)
    requires |es| == |vs|
    ensures |Picked(es, vs, true, from)| + Others(es) <= |es|
    ensures |es| <= from ==> Picked(es, vs, true, from) == []
    decreases |es|
  {
    hide H.IsComplex;
    if es != [] {
      PickedCount(es[..|es| - 1], vs[..|es| - 1], from);
    }
  }

  ghost predicate InSlot(slots: seq<Word>, vs: seq<Word>, i: nat) {
    i < |vs| && i < MAX_REGISTER_ARGUMENTS && |slots| == MAX_REGISTER_ARGUMENTS ==> slots[i] == vs[i]
  }

  ghost predicate ComplexPlaced(es: seq<H.Expr>, vs: seq<Word>, slots: seq<Word>) {
    forall i :: 0 <= i < |es| && H.IsComplex(es[i]) ==> InSlot(slots, vs, i)
  }

  lemma RunStoreComplex(prog: seq<Instr>, w: World, m: Machine, rest: seq<Word>, v: Word, index: nat, total: nat,
                        low: nat, high: nat)
    returns (k: nat)
    requires Ready(prog, m, [Pop(T1), StoreArgument(index, total)]) && m.stack == rest + [v]
    requires low <= |rest| < high
    ensures Inside(prog, w, m, k, low, high)
    ensures Run(prog, w, m, k) ==
      if index < MAX_REGISTER_ARGUMENTS
      then m.(pc := m.pc + 2, t1 := v, slots := m.slots[index := v], stack := rest)
      else m.(pc := m.pc + 2, t1 := v, stack := rest + [v])
  {
    hide Step;
    var code := [Pop(T1), StoreArgument(index, total)];
    AtIndex(prog, m.pc, code);
    assert prog[m.pc + 0] == code[0] && prog[m.pc + 1] == code[1];
    k := 0;
    StepPopFirst(prog, w, m, rest, v);
    Extend(prog, w, m, k, low, high);
    k := k + 1;
    StepStoreArgument(prog, w, Run(prog, w, m, k), index, total);
    Extend(prog, w, m, k, low, high);
    k := k + 1;
  }

  /** All complex arguments of es are placed: those beyond the registers are on the stack, where they
      were, because storing one pushes back what was popped. */
  ghost predicate Stored(m: Machine, m': Machine, p: nat, es: seq<H.Expr>, vs: seq<Word>, rest: seq<Word>)
    requires |es| == |vs|
  {
    && Reached(m, m', p, rest + Picked(es, vs, true, MAX_REGISTER_ARGUMENTS), m.trace)
    && ComplexPlaced(es, vs, m'.slots)
  }

  lemma {:induction false} SimStoreComplex(prog: seq<Instr>, w: World, m: Machine, rest: seq<Word>, es: seq<H.Expr>,
                                           vs: seq<Word>, total: nat, low: nat, high: nat)
    returns (k: nat)
    requires |es| == |vs| && Ready(prog, m, StoreComplexArguments(es, total))
    requires m.stack == rest + Picked(es, vs, true, 0) && low <= |rest| && |m.stack| <= high
    ensures Inside(prog, w, m, k, low, high)
    ensures Stored(m, Run(prog, w, m, k), m.pc + |StoreComplexArguments(es, total)|, es, vs, rest)
    decreases |es|
  {
    hide Step, At, UniqueLabels, H.IsComplex;
    if es == [] {
      k := 0;
      assert m.stack == rest == rest + [];
    } else {
      var i := |es| - 1;
      var es', vs' := es[..i], vs[..i];
      var mine := PickedLast(es, vs, true, 0);
      assert rest + Picked(es, vs, true, 0) == rest + mine + Picked(es', vs', true, 0);
      AtSplit(prog, m.pc, StoreComplexArguments(es', total), StoreLast(es, total));
      k := SimStoreComplex(prog, w, m, rest + mine, es', vs', total, low, high);
      InsideEnd(prog, w, m, k, low, high);
      var j := SimStoreLast(prog, w, Run(prog, w, m, k), rest, es, vs, total, low, high);
      Sequence(prog, w, m, k, j, low, high);
      k := k + j;
    }
  }

  function StoreLast(es: seq<H.Expr>, total: nat): seq<Instr>
    requires es != []
  {
    if H.IsComplex(es[|es| - 1]) then [Pop(T1), StoreArgument(|es| - 1, total)] else []
  }

  /** The stack with the last complex value still on it, or where it stays. */
  lemma LastPicked(es: seq<H.Expr>, vs: seq<Word>, rest: seq<Word>)
    requires |es| == |vs| && es != []
    ensures var i := |es| - 1;
      var before := rest + PickedLast(es, vs, true, 0) + Picked(es[..i], vs[..i], true, MAX_REGISTER_ARGUMENTS);
      var after := rest + Picked(es, vs, true, MAX_REGISTER_ARGUMENTS);
      && (!H.IsComplex(es[i]) || i >= MAX_REGISTER_ARGUMENTS ==> before == after)
      && (H.IsComplex(es[i]) && i >= MAX_REGISTER_ARGUMENTS ==> |before| > |rest|)
      && (H.IsComplex(es[i]) && i < MAX_REGISTER_ARGUMENTS ==> before == rest + [vs[i]] && after == rest)
  {
    hide H.IsComplex;
    var i := |es| - 1;
    PickedCount(es[..i], vs[..i], MAX_REGISTER_ARGUMENTS);
    PickedCount(es, vs, MAX_REGISTER_ARGUMENTS);
    if i >= MAX_REGISTER_ARGUMENTS {
      assert PickedLast(es, vs, true, 0) == PickedLast(es, vs, true, MAX_REGISTER_ARGUMENTS);
    }
  }

  lemma SimStoreLast(prog: seq<Instr>, w: World, m: Machine, rest: seq<Word>, es: seq<H.Expr>,
                     vs: seq<Word>, total: nat, low: nat, high: nat)
    returns (k: nat)
    requires |es| == |vs| && es != []
    requires ComplexPlaced(es[..|es| - 1], vs[..|es| - 1], m.slots)
    requires Ready(prog, m, StoreLast(es, total))
    requires var i := |es| - 1;
      m.stack == rest + PickedLast(es, vs, true, 0) + Picked(es[..i], vs[..i], true, MAX_REGISTER_ARGUMENTS)
    requires low <= |rest| && |m.stack| <= high
    ensures Inside(prog, w, m, k, low, high)
    ensures Stored(m, Run(prog, w, m, k), m.pc + |StoreLast(es, total)|, es, vs, rest)
  {
    hide Step, At, UniqueLabels, H.IsComplex, Picked, PickedLast;
    var i := |es| - 1;
    LastPicked(es, vs, rest);
    if H.IsComplex(es[i]) {
      var top := |m.stack| - 1;
      assert m.stack == m.stack[..top] + [m.stack[top]];
      k := RunStoreComplex(prog, w, m, m.stack[..top], m.stack[top], i, total, low, high);
      PlaceLast(es, vs, m.slots, Run(prog, w, m, k).slots);
    } else {
      k := 0;
      PlaceLast(es, vs, m.slots, m.slots);
    }
  }

  lemma PlaceLast(es: seq<H.Expr>, vs: seq<Word>, slots: seq<Word>, slots': seq<Word>)
    requires |es| == |vs| && es != [] && |slots| == |slots'| == MAX_REGISTER_ARGUMENTS
    requires ComplexPlaced(es[..|es| - 1], vs[..|es| - 1], slots)
    requires H.IsComplex(es[|es| - 1]) ==> InSlot(slots', vs, |es| - 1)
    requires forall i :: 0 <= i < MAX_REGISTER_ARGUMENTS && i < |es| - 1 ==> slots'[i] == slots[i]
    ensures ComplexPlaced(es, vs, slots')
  {
    hide H.IsComplex;
    forall i | 0 <= i < |es| && H.IsComplex(es[i])
      ensures InSlot(slots', vs, i)
    {
      if i < |es| - 1 {
        assert H.IsComplex(es[..|es| - 1][i]);
        assert InSlot(slots, vs[..|es| - 1], i);
      }
    }
  }

  lemma RunLoadArgument(prog: seq<Instr>, w: World, m: Machine, o: Operand, v: Word, index: nat, total: nat,
                        low: nat, high: nat)
    returns (k: nat)
    requires Ready(prog, m, [Load(T1, o), StoreArgument(index, total)]) && Read(w, m, o) == Some(v)
    requires low <= |m.stack| < high
    ensures Inside(prog, w, m, k, low, high)
    ensures Run(prog, w, m, k) ==
      if index < MAX_REGISTER_ARGUMENTS then m.(pc := m.pc + 2, t1 := v, slots := m.slots[index := v])
      else m.(pc := m.pc + 2, t1 := v, stack := m.stack + [v])
  {
    hide Step, Read;
    var code := [Load(T1, o), StoreArgument(index, total)];
    AtIndex(prog, m.pc, code);
    assert prog[m.pc + 0] == code[0] && prog[m.pc + 1] == code[1];
    k := 0;
    StepLoad(prog, w, m, o, v);
    Extend(prog, w, m, k, low, high);
    k := k + 1;
    StepStoreArgument(prog, w, Run(prog, w, m, k), index, total);
    Extend(prog, w, m, k, low, high);
    k := k + 1;
  }

  // ----- The call itself -----

  /** The number of arguments beyond the registers. */
  function OnStackCount(total: nat): nat {
    if total <= MAX_REGISTER_ARGUMENTS then 0 else total - MAX_REGISTER_ARGUMENTS
  }

  /** What a call sees when the stack arguments were pushed in this order. */
  function Arriving(slots: seq<Word>, pushed: seq<Word>, total: nat): (r: seq<Word>)
    requires |slots| == MAX_REGISTER_ARGUMENTS && |pushed| == OnStackCount(total)
    ensures |r| == total
  {
    seq(total, i requires 0 <= i < total =>
      if i < MAX_REGISTER_ARGUMENTS then slots[i] else pushed[|pushed| - 1 - (i - MAX_REGISTER_ARGUMENTS)])
  }

  lemma OutgoingArrives(m: Machine, rest: seq<Word>, pushed: seq<Word>, total: nat)
    requires m.Valid() && m.stack == rest + pushed && |pushed| == OnStackCount(total)
    ensures total <= MAX_REGISTER_ARGUMENTS + |m.stack| && Outgoing(m, total) == Arriving(m.slots, pushed, total)
    ensures m.stack[..|m.stack| - OnStackCount(total)] == rest
  {
  }

  /** A call sees what is in the argument registers and on the stack, and takes its stack arguments
      off the stack. */
  lemma RunCall(prog: seq<Instr>, w: World, m: Machine, rest: seq<Word>, pushed: seq<Word>, callee: nat, total: nat,
                low: nat, high: nat)
    returns (k: nat)
    requires Ready(prog, m, [CallInstr(callee, total)])
    requires m.stack == rest + pushed && |pushed| == OnStackCount(total)
    requires low <= |rest| && |m.stack| <= high
    ensures Inside(prog, w, m, k, low, high)
    ensures var trace := m.trace + [Event(callee, Arriving(m.slots, pushed, total))];
      var m' := Run(prog, w, m, k);
      && Reached(m, m', m.pc + 1, rest, trace) && m'.t1 == w.result(trace)
      && forall j :: 0 <= j < MAX_REGISTER_ARGUMENTS ==> m'.slots[j] == w.clobber(trace, j)
  {
    hide Step, Arriving;
    AtIndex(prog, m.pc, [CallInstr(callee, total)]);
    assert prog[m.pc + 0] == CallInstr(callee, total);
    OutgoingArrives(m, rest, pushed, total);
    StepCall(prog, w, m, rest, Arriving(m.slots, pushed, total), callee);
    k := 0;
    Extend(prog, w, m, k, low, high);
    k := k + 1;
  }

  lemma StepCall(prog: seq<Instr>, w: World, m: Machine, rest: seq<Word>, vs: seq<Word>, callee: nat)
    requires Fetches(prog, m, CallInstr(callee, |vs|))
    requires |vs| <= MAX_REGISTER_ARGUMENTS + |m.stack| && Outgoing(m, |vs|) == vs
    requires m.stack[..|m.stack| - OnStackCount(|vs|)] == rest
    ensures var trace := m.trace + [Event(callee, vs)];
      var m' := Step(prog, w, m);
      && Reached(m, m', m.pc + 1, rest, trace) && m'.t1 == w.result(trace)
      && forall j :: 0 <= j < MAX_REGISTER_ARGUMENTS ==> m'.slots[j] == w.clobber(trace, j)
  {
    hide Outgoing;
  }

  // ----- When the arguments arrive -----

  /** The registers after the arguments that are not complex have been passed, from what they held
      before: an argument keeps its register if all arguments evaluated later spare it. */
  ghost predicate Placed(es: seq<H.Expr>, vs: seq<Word>, slots: seq<Word>, slots': seq<Word>)
    requires |es| == |vs|
  {
    forall j :: 0 <= j < MAX_REGISTER_ARGUMENTS ==> PlacedAt(es, vs, slots, slots', j)
  }

  ghost predicate PlacedAt(es: seq<H.Expr>, vs: seq<Word>, slots: seq<Word>, slots': seq<Word>, j: nat)
    requires |es| == |vs|
  {
    |slots| == |slots'| == MAX_REGISTER_ARGUMENTS && j < MAX_REGISTER_ARGUMENTS ==>
      if j < |es| && !H.IsComplex(es[j]) then SparedBelow(es, j, j) ==> slots'[j] == vs[j]
      else SparedBelow(es, |es|, j) ==> slots'[j] == slots[j]
  }

  /** The arguments below index c that are not complex spare register j. */
  ghost predicate SparedBelow(es: seq<H.Expr>, c: nat, j: nat)
    requires c <= |es|
  {
    forall i :: 0 <= i < c && !H.IsComplex(es[i]) ==> H.Spares(es[i], j)
  }

  /** All pushed stack arguments, complex ones first. */
  function AllPushed(es: seq<H.Expr>, first: seq<Word>, second: seq<Word>): seq<Word>
    requires |es| == |first| == |second|
  {
    Picked(es, first, true, MAX_REGISTER_ARGUMENTS) + Picked(es, second, false, MAX_REGISTER_ARGUMENTS)
  }

  lemma {:induction false} AllPushedCount(es: seq<H.Expr>, first: seq<Word>, second: seq<Word>)
    requires |es| == |first| == |second|
    ensures |AllPushed(es, first, second)| == OnStackCount(|es|)
    decreases |es|
  {
    hide H.IsComplex;
    if es != [] {
      AllPushedCount(es[..|es| - 1], first[..|es| - 1], second[..|es| - 1]);
    }
  }

  ghost predicate StackInOrder(es: seq<H.Expr>) {
    forall i, j :: MAX_REGISTER_ARGUMENTS <= i < j < |es| && H.IsComplex(es[i]) ==> H.IsComplex(es[j])
  }

  /** Stack arguments, the last one deepest. */
  function Stacked(vs: seq<Word>): seq<Word> {
    seq(OnStackCount(|vs|), i requires 0 <= i < OnStackCount(|vs|) => vs[|vs| - 1 - i])
  }

  lemma StackedLast(vs: seq<Word>)
    requires |vs| > MAX_REGISTER_ARGUMENTS
    ensures Stacked(vs) == [vs[|vs| - 1]] + Stacked(vs[..|vs| - 1])
  {
  }

  lemma {:induction false} PushedInOrder(es: seq<H.Expr>, first: seq<Word>, second: seq<Word>)
    requires |es| == |first| == |second| && StackInOrder(es)
    ensures AllPushed(es, first, second) == Stacked(H.Merged(es, first, second))
    decreases |es|
  {
    hide H.IsComplex, Stacked;
    AllPushedCount(es, first, second);
    if |es| > MAX_REGISTER_ARGUMENTS {
      var i := |es| - 1;
      PushedInOrder(es[..i], first[..i], second[..i]);
      var vs := H.Merged(es, first, second);
      assert vs[..i] == H.Merged(es[..i], first[..i], second[..i]);
      StackedLast(vs);
      if !H.IsComplex(es[i]) {
        NoneHigh(es[..i], first[..i]);
      }
    } else {
      StackedNone(H.Merged(es, first, second));
    }
  }

  lemma StackedNone(vs: seq<Word>)
    requires |vs| <= MAX_REGISTER_ARGUMENTS
    ensures Stacked(vs) == []
  {
  }

  lemma {:induction false} NoneHigh(es: seq<H.Expr>, vs: seq<Word>)
    requires |es| == |vs|
    requires forall i :: MAX_REGISTER_ARGUMENTS <= i < |es| ==> !H.IsComplex(es[i])
    ensures Picked(es, vs, true, MAX_REGISTER_ARGUMENTS) == []
    decreases |es|
  {
    hide H.IsComplex;
    if es != [] {
      NoneHigh(es[..|es| - 1], vs[..|es| - 1]);
    }
  }

  /** With arguments as `ArgumentsOk` wants them every value arrives in its place. */
  lemma ArgumentsArrive(es: seq<H.Expr>, first: seq<Word>, second: seq<Word>, slots: seq<Word>, slots': seq<Word>)
    requires |es| == |first| == |second| && |slots| == |slots'| == MAX_REGISTER_ARGUMENTS && H.ArgumentsOk(es)
    requires ComplexPlaced(es, first, slots) && Placed(es, second, slots, slots')
    ensures |AllPushed(es, first, second)| == OnStackCount(|es|)
    ensures Arriving(slots', AllPushed(es, first, second), |es|) == H.Merged(es, first, second)
  {
    hide H.IsComplex, H.Spares, AllPushed;
    AllPushedCount(es, first, second);
    assert StackInOrder(es);
    PushedInOrder(es, first, second);
    var vs := H.Merged(es, first, second);
    forall j | 0 <= j < MAX_REGISTER_ARGUMENTS && j < |es|
      ensures slots'[j] == vs[j]
    {
      assert PlacedAt(es, second, slots, slots', j);
      if H.IsComplex(es[j]) {
        assert InSlot(slots, first, j);
      }
    }
  }
}
