/** Replacing a stretch of a program by another of the same length: when the two stretches do the
    same, up to registers that are dead afterwards, the two programs behave the same. */
module Rewriting {
  import opened Words
  import opened Environment
  import opened Lir
  import opened Liveness

  /** What a halted machine leaves for others to see: how it ended, its locals, its calls and its
      operand stack. Registers are gone. */
  ghost predicate SameEnd(p: Machine, q: Machine) {
    p.status == q.status && p.locals == q.locals && p.trace == q.trace && p.stack == q.stack
  }

  /** Machine q has made all the calls p has made, and has ended the way p has if p has ended. */
  ghost predicate Covers(p: Machine, q: Machine) {
    p.trace <= q.trace && (!p.status.Running? ==> SameEnd(p, q))
  }

  /** Every run of P from the state is covered by a run of Q. */
  ghost predicate CoveredFrom(P: seq<Instr>, Q: seq<Instr>, w: World, p: Machine, q: Machine, n: nat) {
    exists n': nat :: CoveredAt(P, Q, w, p, q, n, n')
  }

  ghost predicate CoveredAt(P: seq<Instr>, Q: seq<Instr>, w: World, p: Machine, q: Machine, n: nat, n': nat) {
    Covers(Run(P, w, p, n), Run(Q, w, q, n'))
  }

  ghost predicate Start(m: Machine) {
    m.Valid() && m.pc == 0 && m.status.Running?
  }

  ghost predicate Refines(P: seq<Instr>, Q: seq<Instr>) {
    forall w: World, m: Machine, n: nat :: Start(m) ==> CoveredFrom(P, Q, w, m, m, n)
  }

  /** The programs make the same calls in the same order and end the same way, or both run on. */
  ghost predicate SameBehaviour(P: seq<Instr>, Q: seq<Instr>) {
    Refines(P, Q) && Refines(Q, P)
  }

  lemma CoversItself(P: seq<Instr>, w: World, m: Machine, n: nat)
    ensures CoveredFrom(P, P, w, m, m, n)
  {
    assert CoveredAt(P, P, w, m, m, n, n);
  }

  lemma BehaviourReflexive(P: seq<Instr>)
    ensures SameBehaviour(P, P)
  {
    forall w: World, m: Machine, n: nat | Start(m)
      ensures CoveredFrom(P, P, w, m, m, n)
    {
      CoversItself(P, w, m, n);
    }
  }

  lemma RefinesTransitive(P: seq<Instr>, Q: seq<Instr>, R: seq<Instr>)
    requires Refines(P, Q) && Refines(Q, R)
    ensures Refines(P, R)
  {
    hide Run;
    forall w: World, m: Machine, n: nat | Start(m)
      ensures CoveredFrom(P, R, w, m, m, n)
    {
      assert CoveredFrom(P, Q, w, m, m, n);
      var n1: nat :| CoveredAt(P, Q, w, m, m, n, n1);
      assert CoveredFrom(Q, R, w, m, m, n1);
      var n2 :| CoveredAt(Q, R, w, m, m, n1, n2);
      assert CoveredAt(P, R, w, m, m, n, n2);
    }
  }

  lemma BehaviourTransitive(P: seq<Instr>, Q: seq<Instr>, R: seq<Instr>)
    requires SameBehaviour(P, Q) && SameBehaviour(Q, R)
    ensures SameBehaviour(P, R)
  {
    hide Refines;
    RefinesTransitive(P, Q, R);
    RefinesTransitive(R, Q, P);
  }

  // ----- One stretch replaced -----

  predicate Straight(prog: seq<Instr>, lo: nat, hi: nat)
    requires lo <= hi <= |prog|
  {
    forall i :: lo <= i < hi ==> !prog[i].op.NEW_LABEL?
  }

  /** The programs agree outside [lo, hi), and neither has a label inside. */
  ghost predicate Differ(P: seq<Instr>, Q: seq<Instr>, lo: nat, hi: nat) {
    && |P| == |Q| && lo < hi <= |P|
    && (forall i :: 0 <= i < |P| && !(lo <= i < hi) ==> P[i] == Q[i])
    && Straight(P, lo, hi) && Straight(Q, lo, hi)
  }

  lemma FindSame(P: seq<Instr>, Q: seq<Instr>, lo: nat, hi: nat, id: nat)
    requires Differ(P, Q, lo, hi)
    ensures Find(P, id) == Find(Q, id)
    ensures Find(P, id) < |P| ==> !(lo <= Find(P, id) < hi)
  {
    var p, q := Find(P, id), Find(Q, id);
    assert p < |P| ==> Q[p] == P[p] || lo <= p < hi;
    assert q < |Q| ==> P[q] == Q[q] || lo <= q < hi;
  }

  /** What the machines differ in does not matter: a register, and the one of remainders. */
  ghost predicate Nearly(P: seq<Instr>, c: Cell, p: Machine, q: Machine) {
    exists x: Machine :: Between(P, c, p, x, q)
  }

  ghost predicate Between(P: seq<Instr>, c: Cell, p: Machine, x: Machine, q: Machine) {
    NextSame(P, c, p, x) && NextSame(P, Slot(REMAINDER_SLOT), x, q)
  }

  /** The ends of the two stretches, from the same state: both machines have ended alike, or both
      run on from the same place outside with at most dead registers between them. */
  ghost predicate Agree(P: seq<Instr>, lo: nat, hi: nat, c: Cell, p: Machine, q: Machine) {
    if p.status.Running? then
      && q.status.Running? && p.pc == q.pc && !(lo < p.pc < hi) && p.trace == q.trace
      && Nearly(P, c, p, q)
    else SameEnd(p, q)
  }

  ghost predicate AlikeFrom(P: seq<Instr>, Q: seq<Instr>, lo: nat, hi: nat, c: Cell, w: World, m: Machine)
    requires lo <= hi
  {
    Agree(P, lo, hi, c, Run(P, w, m, hi - lo), Run(Q, w, m, hi - lo))
  }

  /** The two stretches do the same. */
  ghost predicate Alike(P: seq<Instr>, Q: seq<Instr>, lo: nat, hi: nat, c: Cell)
    requires lo <= hi
  {
    forall w: World, m: Machine :: m.Valid() && m.pc == lo && m.status.Running? ==>
      AlikeFrom(P, Q, lo, hi, c, w, m)
  }

  lemma EffectGrows(w: World, m: Machine, i: Instr)
    ensures m.trace <= Effect(w, m, i).trace
  {
    hide Read, Alu, SetResult, UnaryResult, Outgoing;
  }

  lemma StepGrows(prog: seq<Instr>, w: World, m: Machine)
    ensures m.trace <= Step(prog, w, m).trace
  {
    hide Read, Effect, Find;
    if m.pc < |prog| {
      EffectGrows(w, m, prog[m.pc]);
    }
  }

  /** Calls once made stay made. */
  lemma {:induction false} RunGrows(prog: seq<Instr>, w: World, m: Machine, n: nat)
    ensures m.trace <= Run(prog, w, m, n).trace
    decreases n
  {
    hide Step;
    if n > 0 {
      StepGrows(prog, w, m);
      RunGrows(prog, w, Step(prog, w, m), n - 1);
    }
  }

  lemma RunGrowsFrom(prog: seq<Instr>, w: World, m: Machine, a: nat, b: nat)
    requires a <= b
    ensures Run(prog, w, m, a).trace <= Run(prog, w, m, b).trace
    ensures !Run(prog, w, m, a).status.Running? ==> Run(prog, w, m, b) == Run(prog, w, m, a)
  {
    hide Run;
    RunSplit(prog, w, m, a, b - a);
    RunGrows(prog, w, Run(prog, w, m, a), b - a);
    if !Run(prog, w, m, a).status.Running? {
      HaltedStays(prog, w, Run(prog, w, m, a), b - a);
    }
  }

  /** Outside the stretch both programs take the same step, to a place outside or at its start. */
  lemma OutsideStep(P: seq<Instr>, Q: seq<Instr>, lo: nat, hi: nat, w: World, m: Machine)
    requires Differ(P, Q, lo, hi) && !(lo <= m.pc < hi) && m.status.Running?
    ensures Step(P, w, m) == Step(Q, w, m)
    ensures var s := Step(P, w, m); s.status.Running? ==> !(lo < s.pc < hi)
  {
    hide Effect, Read, Find;
    if m.pc < |P| {
      var i := P[m.pc];
      if i.dst.Label? {
        FindSame(P, Q, lo, hi, i.dst.id);
      }
      EffectKeepsPc(w, m, i);
    }
  }

  lemma OneStepMore(prog: seq<Instr>, w: World, m: Machine, n: nat)
    requires n > 0
    ensures Run(prog, w, m, n) == Run(prog, w, Step(prog, w, m), n - 1)
  {
    hide Step;
  }

  lemma SameButEnd(c: Cell, p: Machine, q: Machine)
    requires SameBut(c, p, q)
    ensures SameEnd(p, q)
  {
    SlotsSame(c, p, q);
  }

  lemma {:induction false} NextRuns(P: seq<Instr>, w: World, c: Cell, p: Machine, q: Machine, n: nat)
    requires NextSame(P, c, p, q) && p.status.Running?
    ensures SameEnd(Run(P, w, p, n), Run(P, w, q, n))
  {
    hide Run, Dead, SameBut;
    if p != q {
      DeadRuns(P, w, c, p, q, n);
      SameButEnd(c, Run(P, w, p, n), Run(P, w, q, n));
    }
  }

  /** From there on they make the same calls and end the same. */
  lemma {:induction false} NearlyRuns(P: seq<Instr>, w: World, c: Cell, p: Machine, q: Machine, n: nat)
    requires Nearly(P, c, p, q) && p.status.Running?
    ensures SameEnd(Run(P, w, p, n), Run(P, w, q, n))
  {
    hide Run, NextSame;
    var x: Machine :| Between(P, c, p, x, q);
    NextRuns(P, w, c, p, x, n);
    NextStatus(P, c, p, x);
    NextRuns(P, w, Slot(REMAINDER_SLOT), x, q, n);
  }

  lemma NextStatus(P: seq<Instr>, c: Cell, p: Machine, q: Machine)
    requires NextSame(P, c, p, q)
    ensures p.status == q.status && p.pc == q.pc && p.trace == q.trace && SameEnd(p, q)
  {
    hide Dead;
    if p != q {
      SlotsSame(c, p, q);
    }
  }

  lemma HaltedCovers(P: seq<Instr>, Q: seq<Instr>, w: World, p: Machine, q: Machine, n: nat)
    requires !p.status.Running? && SameEnd(p, q)
    ensures CoveredFrom(P, Q, w, p, q, n)
  {
    hide Step, Run;
    HaltedStays(P, w, p, n);
    HaltedStays(Q, w, q, 0);
    assert CoveredAt(P, Q, w, p, q, n, 0);
  }

  /** From the same state outside the stretch, Q covers P. */
  lemma {:induction false} Follow(P: seq<Instr>, Q: seq<Instr>, lo: nat, hi: nat, c: Cell,
                                  w: World, m: Machine, n: nat)
    requires lo < hi && Differ(P, Q, lo, hi) && Alike(P, Q, lo, hi, c)
    requires m.Valid() && (m.status.Running? ==> !(lo < m.pc < hi))
    ensures CoveredFrom(P, Q, w, m, m, n)
    decreases n
  {
    hide Step, Run, Differ, Covers, Agree, Dead;
    if !m.status.Running? {
      HaltedCovers(P, Q, w, m, m, n);
    } else if n == 0 {
      AtOnce(P, Q, w, m);
    } else if m.pc == lo {
      assert AlikeFrom(P, Q, lo, hi, c, w, m);
      var p, q := Run(P, w, m, hi - lo), Run(Q, w, m, hi - lo);
      if p.status.Running? && n >= hi - lo {
        AgreeRunning(P, Q, lo, hi, c, w, m);
        Follow(P, Q, lo, hi, c, w, q, n - (hi - lo));
        AfterStretch(P, Q, lo, hi, c, w, m, n);
      } else {
        WithinStretch(P, Q, lo, hi, c, w, m, n);
      }
    } else {
      OutsideStep(P, Q, lo, hi, w, m);
      StepValid(P, w, m);
      Follow(P, Q, lo, hi, c, w, Step(P, w, m), n - 1);
      AfterStep(P, Q, w, m, n);
    }
  }

  lemma AtOnce(P: seq<Instr>, Q: seq<Instr>, w: World, m: Machine)
    requires m.status.Running?
    ensures CoveredFrom(P, Q, w, m, m, 0)
  {
    assert CoveredAt(P, Q, w, m, m, 0, 0);
  }

  lemma AfterStep(P: seq<Instr>, Q: seq<Instr>, w: World, m: Machine, n: nat)
    requires n > 0 && Step(P, w, m) == Step(Q, w, m)
    requires CoveredFrom(P, Q, w, Step(P, w, m), Step(P, w, m), n - 1)
    ensures CoveredFrom(P, Q, w, m, m, n)
  {
    hide Step, Covers, Run;
    var s := Step(P, w, m);
    var n1: nat :| CoveredAt(P, Q, w, s, s, n - 1, n1);
    OneStepMore(P, w, m, n);
    OneStepMore(Q, w, m, n1 + 1);
    assert CoveredAt(P, Q, w, m, m, n, n1 + 1);
  }

  lemma AgreeRunning(P: seq<Instr>, Q: seq<Instr>, lo: nat, hi: nat, c: Cell, w: World, m: Machine)
    requires lo < hi && m.Valid() && AlikeFrom(P, Q, lo, hi, c, w, m)
    ensures var p, q := Run(P, w, m, hi - lo), Run(Q, w, m, hi - lo);
      && p.Valid() && q.Valid() && (p.status.Running? <==> q.status.Running?)
      && (p.status.Running? ==> q.pc == p.pc && !(lo < q.pc < hi))
  {
    hide Step, Run, Dead, SameBut;
    RunValid(P, w, m, hi - lo);
    RunValid(Q, w, m, hi - lo);
  }

  lemma WithinStretch(P: seq<Instr>, Q: seq<Instr>, lo: nat, hi: nat, c: Cell, w: World, m: Machine, n: nat)
    requires lo < hi && AlikeFrom(P, Q, lo, hi, c, w, m)
    requires n < hi - lo || !Run(P, w, m, hi - lo).status.Running?
    ensures CoveredFrom(P, Q, w, m, m, n)
  {
    hide Step, Run, Dead, SameBut;
    var d := hi - lo;
    if n < d {
      RunGrowsFrom(P, w, m, n, d);
    } else {
      RunGrowsFrom(P, w, m, d, n);
    }
    assert CoveredAt(P, Q, w, m, m, n, d);
  }

  lemma AfterStretch(P: seq<Instr>, Q: seq<Instr>, lo: nat, hi: nat, c: Cell, w: World, m: Machine, n: nat)
    requires lo < hi && n >= hi - lo && AlikeFrom(P, Q, lo, hi, c, w, m)
    requires var p, q := Run(P, w, m, hi - lo), Run(Q, w, m, hi - lo);
      p.status.Running? && CoveredFrom(P, Q, w, q, q, n - (hi - lo))
    ensures CoveredFrom(P, Q, w, m, m, n)
  {
    hide Step, Run, Dead, SameBut, Nearly;
    var d := hi - lo;
    var p, q := Run(P, w, m, d), Run(Q, w, m, d);
    var n1: nat :| CoveredAt(P, Q, w, q, q, n - d, n1);
    RunSplit(P, w, m, d, n - d);
    RunSplit(Q, w, m, d, n1);
    NearlyRuns(P, w, c, p, q, n - d);
    assert CoveredAt(P, Q, w, m, m, n, d + n1);
  }

  /** And P covers Q. */
  lemma {:induction false} FollowBack(P: seq<Instr>, Q: seq<Instr>, lo: nat, hi: nat, c: Cell,
                                      w: World, m: Machine, n: nat)
    requires lo < hi && Differ(P, Q, lo, hi) && Alike(P, Q, lo, hi, c)
    requires m.Valid() && (m.status.Running? ==> !(lo < m.pc < hi))
    ensures CoveredFrom(Q, P, w, m, m, n)
    decreases n
  {
    hide Step, Run, Differ, Covers, Agree, Dead;
    if !m.status.Running? {
      HaltedCovers(Q, P, w, m, m, n);
    } else if n == 0 {
      AtOnce(Q, P, w, m);
    } else if m.pc == lo {
      assert AlikeFrom(P, Q, lo, hi, c, w, m);
      var p, q := Run(P, w, m, hi - lo), Run(Q, w, m, hi - lo);
      AgreeRunning(P, Q, lo, hi, c, w, m);
      if p.status.Running? && n >= hi - lo {
        FollowBack(P, Q, lo, hi, c, w, q, n - (hi - lo));
        BackAfterStretch(P, Q, lo, hi, c, w, m, n);
      } else {
        BackWithinStretch(P, Q, lo, hi, c, w, m, n);
      }
    } else {
      OutsideStep(P, Q, lo, hi, w, m);
      StepValid(P, w, m);
      FollowBack(P, Q, lo, hi, c, w, Step(P, w, m), n - 1);
      AfterStep(Q, P, w, m, n);
    }
  }

  lemma BackWithinStretch(P: seq<Instr>, Q: seq<Instr>, lo: nat, hi: nat, c: Cell, w: World, m: Machine,
                          n: nat)
    requires lo < hi && AlikeFrom(P, Q, lo, hi, c, w, m)
    requires n < hi - lo || !Run(P, w, m, hi - lo).status.Running?
    ensures CoveredFrom(Q, P, w, m, m, n)
  {
    hide Step, Run, Dead, SameBut;
    var d := hi - lo;
    if n < d {
      RunGrowsFrom(Q, w, m, n, d);
    } else {
      RunGrowsFrom(Q, w, m, d, n);
    }
    assert CoveredAt(Q, P, w, m, m, n, d);
  }

  lemma BackAfterStretch(P: seq<Instr>, Q: seq<Instr>, lo: nat, hi: nat, c: Cell, w: World, m: Machine,
                         n: nat)
    requires lo < hi && n >= hi - lo && AlikeFrom(P, Q, lo, hi, c, w, m)
    requires var p, q := Run(P, w, m, hi - lo), Run(Q, w, m, hi - lo);
      p.status.Running? && CoveredFrom(Q, P, w, q, q, n - (hi - lo))
    ensures CoveredFrom(Q, P, w, m, m, n)
  {
    hide Step, Run, Dead, SameBut, Nearly;
    var d := hi - lo;
    var p, q := Run(P, w, m, d), Run(Q, w, m, d);
    var n1: nat :| CoveredAt(Q, P, w, q, q, n - d, n1);
    RunSplit(Q, w, m, d, n - d);
    RunSplit(P, w, m, d, n1);
    NearlyRuns(P, w, c, p, q, n1);
    assert CoveredAt(Q, P, w, m, m, n, d + n1);
  }

  /** Replacing a stretch by one that does the same changes no behaviour. */
  lemma StretchReplaced(P: seq<Instr>, Q: seq<Instr>, lo: nat, hi: nat, c: Cell)
    requires lo < hi && Differ(P, Q, lo, hi) && Alike(P, Q, lo, hi, c)
    ensures SameBehaviour(P, Q)
  {
    hide Run, Differ, Alike, CoveredFrom;
    forall w: World, m: Machine, n: nat | Start(m)
      ensures CoveredFrom(P, Q, w, m, m, n) && CoveredFrom(Q, P, w, m, m, n)
    {
      Follow(P, Q, lo, hi, c, w, m, n);
      FollowBack(P, Q, lo, hi, c, w, m, n);
    }
  }
}
