/** Facts about runs of flat programs: where code lies, how runs compose, and how far the operand
    stack moves during a run. */
module Runs {
  import opened Words
  import opened Environment
  import opened Lir

  /** The code lies in the program at position p. */
  ghost predicate At(prog: seq<Instr>, p: nat, code: seq<Instr>) {
    p + |code| <= |prog| && prog[p..p + |code|] == code
  }

  lemma AtSplit(prog: seq<Instr>, p: nat, a: seq<Instr>, b: seq<Instr>)
    requires At(prog, p, a + b)
    ensures At(prog, p, a) && At(prog, p + |a|, b)
  {
    var c := prog[p..p + |a + b|];
    assert prog[p..p + |a|] == c[..|a|] == a;
    assert prog[p + |a|..p + |a| + |b|] == c[|a|..] == b;
  }

  lemma AtSplit3(prog: seq<Instr>, p: nat, a: seq<Instr>, b: seq<Instr>, c: seq<Instr>)
    requires At(prog, p, a + b + c)
    ensures At(prog, p, a) && At(prog, p + |a|, b) && At(prog, p + |a| + |b|, c)
  {
    hide At;
    AtSplit(prog, p, a + b, c);
    AtSplit(prog, p, a, b);
  }

  lemma AtSplit4(prog: seq<Instr>, p: nat, a: seq<Instr>, b: seq<Instr>, c: seq<Instr>, d: seq<Instr>)
    requires At(prog, p, a + b + c + d)
    ensures At(prog, p, a) && At(prog, p + |a|, b) && At(prog, p + |a| + |b|, c) && At(prog, p + |a| + |b| + |c|, d)
  {
    hide At;
    AtSplit(prog, p, a + b + c, d);
    AtSplit3(prog, p, a, b, c);
  }

  lemma AtIndex(prog: seq<Instr>, p: nat, code: seq<Instr>)
    requires At(prog, p, code)
    ensures forall i :: 0 <= i < |code| ==> prog[p + i] == code[i]
  {
    var c := prog[p..p + |code|];
    assert forall i :: 0 <= i < |code| ==> c[i] == prog[p + i];
  }

  ghost predicate UniqueLabels(prog: seq<Instr>) {
    forall i, j :: 0 <= i < j < |prog| && prog[i].op.NEW_LABEL? && prog[j].op.NEW_LABEL?
      ==> prog[i].src != prog[j].src
  }

  lemma FindUnique(prog: seq<Instr>, p: nat, id: nat)
    requires UniqueLabels(prog) && p < |prog|
    requires prog[p].op.NEW_LABEL? && prog[p].src == Label(id)
    ensures Find(prog, id) == p
  {
    assert Find(prog, id) <= p;
  }

  /** During k steps the stack height stays between two bounds. */
  ghost predicate Inside(prog: seq<Instr>, w: World, m: Machine, k: nat, low: nat, high: nat)
    decreases k
  {
    low <= |m.stack| <= high && (k == 0 || Inside(prog, w, Step(prog, w, m), k - 1, low, high))
  }

  /** The machine is about to execute the instruction. */
  ghost predicate Fetches(prog: seq<Instr>, m: Machine, i: Instr) {
    m.status.Running? && m.Valid() && m.pc < |prog| && prog[m.pc] == i
  }

  /** One more step at the end of a run. */
  lemma Extend(prog: seq<Instr>, w: World, m: Machine, k: nat, low: nat, high: nat)
    requires Inside(prog, w, m, k, low, high)
    requires var m' := Step(prog, w, Run(prog, w, m, k)); low <= |m'.stack| <= high
    ensures Run(prog, w, m, k + 1) == Step(prog, w, Run(prog, w, m, k))
    ensures Inside(prog, w, m, k + 1, low, high)
  {
    InsideEnd(prog, w, m, k, low, high);
    OneStep(prog, w, Run(prog, w, m, k), low, high);
    Sequence(prog, w, m, k, 1, low, high);
  }

  lemma OneStep(prog: seq<Instr>, w: World, m: Machine, low: nat, high: nat)
    ensures Run(prog, w, m, 1) == Step(prog, w, m)
    ensures Inside(prog, w, m, 0, low, high) && Inside(prog, w, Step(prog, w, m), 0, low, high)
      ==> Inside(prog, w, m, 1, low, high)
  {
    hide Step;
  }

  lemma InsideEnd(prog: seq<Instr>, w: World, m: Machine, k: nat, low: nat, high: nat)
    requires Inside(prog, w, m, k, low, high)
    ensures low <= |Run(prog, w, m, k).stack| <= high
    decreases k
  {
    hide Step;
    if k > 0 {
      InsideEnd(prog, w, Step(prog, w, m), k - 1, low, high);
    }
  }

  lemma {:induction false} Sequence(prog: seq<Instr>, w: World, m: Machine, a: nat, b: nat, low: nat, high: nat)
    requires Inside(prog, w, m, a, low, high)
    requires Inside(prog, w, Run(prog, w, m, a), b, low, high)
    ensures Run(prog, w, m, a + b) == Run(prog, w, Run(prog, w, m, a), b)
    ensures Inside(prog, w, m, a + b, low, high)
    decreases a
  {
    hide Step;
    if a > 0 {
      Sequence(prog, w, Step(prog, w, m), a - 1, b, low, high);
    }
  }

  lemma {:induction false} Weaken(prog: seq<Instr>, w: World, m: Machine, k: nat, low: nat, high: nat,
                                  low': nat, high': nat)
    requires Inside(prog, w, m, k, low, high)
    requires low' <= low && high <= high'
    ensures Inside(prog, w, m, k, low', high')
    decreases k
  {
    hide Step;
    if k > 0 {
      Weaken(prog, w, Step(prog, w, m), k - 1, low, high, low', high');
    }
  }

  /** A machine that went on from m to position p, with only registers, stack and trace changed. */
  ghost predicate Reached(m: Machine, m': Machine, p: nat, stack: seq<Word>, trace: seq<Event>) {
    && m'.status.Running? && m'.pc == p && m'.stack == stack && m'.locals == m.locals && m'.trace == trace
    && m'.Valid()
  }

  /** A machine that faulted on the way. */
  ghost predicate FaultedFrom(m: Machine, m': Machine, trace: seq<Event>) {
    m'.status.Trapped? && m'.locals == m.locals && m'.trace == trace
  }

  ghost predicate Halts(prog: seq<Instr>, w: World, m: Machine) {
    exists k: nat :: !Run(prog, w, m, k).status.Running?
  }

  lemma RunningBefore(prog: seq<Instr>, w: World, m: Machine, k: nat, j: nat)
    requires Run(prog, w, m, k).status.Running? && j <= k
    ensures Run(prog, w, m, j).status.Running?
  {
    hide Step, Run;
    RunSplit(prog, w, m, j, k - j);
    if !Run(prog, w, m, j).status.Running? {
      HaltedStays(prog, w, Run(prog, w, m, j), k - j);
    }
  }

  lemma HaltedAgree(prog: seq<Instr>, w: World, m: Machine, j: nat, k: nat)
    requires !Run(prog, w, m, j).status.Running? && !Run(prog, w, m, k).status.Running?
    ensures Run(prog, w, m, j) == Run(prog, w, m, k)
  {
    hide Step, Run;
    if j <= k {
      RunSplit(prog, w, m, j, k - j);
      HaltedStays(prog, w, Run(prog, w, m, j), k - j);
    } else {
      RunSplit(prog, w, m, k, j - k);
      HaltedStays(prog, w, Run(prog, w, m, k), j - k);
    }
  }
}
