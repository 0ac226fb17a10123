/** The delayed-operator loop emits, for any flat list, the code of the tree that splits the list at
    its rightmost operator of the lowest precedence. */
module Precedence {
  import opened Lir
  import opened Lowering
  import H = Hir

  ghost predicate AllAbove(rest: seq<H.Term>, p: nat) {
    forall i :: 0 <= i < |rest| ==> H.Precedence(rest[i].op) > p
  }

  ghost predicate AllAtLeast(rest: seq<H.Term>, p: nat) {
    forall i :: 0 <= i < |rest| ==> H.Precedence(rest[i].op) >= p
  }

  lemma {:induction false} KeepOver(bottom: seq<H.MathToken>, top: seq<H.MathToken>, p: nat)
    requires forall i :: 0 <= i < |bottom| ==> H.Precedence(bottom[i]) < p
    ensures Keep(bottom + top, p) == |bottom| + Keep(top, p)
  {
    if top == [] {
      assert bottom + top == bottom;
    } else if H.Precedence(top[|top| - 1]) >= p {
      assert (bottom + top)[..|bottom + top| - 1] == bottom + top[..|top| - 1];
      KeepOver(bottom, top[..|top| - 1], p);
    }
  }

  lemma {:induction false} FlushOver(bottom: seq<H.MathToken>, top: seq<H.MathToken>)
    ensures Flush(bottom + top) == Flush(top) + Flush(bottom)
  {
    hide DoMathOperation;
    if top == [] {
      assert bottom + top == bottom;
    } else {
      assert (bottom + top)[..|bottom + top| - 1] == bottom + top[..|top| - 1];
      FlushOver(bottom, top[..|top| - 1]);
    }
  }

  /** Operators that bind less tightly than everything still to come wait until the end. */
  lemma {:induction false} LoopOver(rest: seq<H.Term>, bottom: seq<H.MathToken>, top: seq<H.MathToken>, n: nat, p: nat)
    requires forall i :: 0 <= i < |bottom| ==> H.Precedence(bottom[i]) <= p
    requires AllAbove(rest, p)
    ensures var r := LowerTerms(rest, top, n);
      LowerTerms(rest, bottom + top, n) == Piece(r.code + Flush(bottom), r.next)
    decreases rest
  {
    hide LowerPushed, H.Precedence, Flush, Keep;
    if rest == [] {
      FlushOver(bottom, top);
    } else {
      var q := H.Precedence(rest[0].op);
      var k := Keep(top, q);
      KeepOver(bottom, top, q);
      assert (bottom + top)[..|bottom| + k] + [rest[0].op] == bottom + (top[..k] + [rest[0].op]);
      assert (bottom + top)[|bottom| + k..] == top[k..];
      var x := LowerPushed(rest[0].operand, n);
      LoopOver(rest[1..], bottom, top[..k] + [rest[0].op], x.next, p);
    }
  }

  /** An operator that binds no tighter than all before it makes the loop perform all of them. */
  lemma {:induction false} LoopThrough(before: seq<H.Term>, t: H.Term, after: seq<H.Term>,
                                       delayed: seq<H.MathToken>, n: nat)
    requires AllAtLeast(before, H.Precedence(t.op))
    requires forall i :: 0 <= i < |delayed| ==> H.Precedence(delayed[i]) >= H.Precedence(t.op)
    ensures var a := LowerTerms(before, delayed, n);
      var x := LowerPushed(t.operand, a.next);
      var b := LowerTerms(after, [t.op], x.next);
      LowerTerms(before + [t] + after, delayed, n) == Piece(a.code + x.code + b.code, b.next)
    decreases before
  {
    hide LowerPushed, H.Precedence, Flush, Keep;
    var rest := before + [t] + after;
    if before == [] {
      assert rest[1..] == after;
      assert delayed[..0] + [t.op] == [t.op];
      assert Keep(delayed, H.Precedence(t.op)) == 0;
    } else {
      var q := H.Precedence(before[0].op);
      var k := Keep(delayed, q);
      assert rest[1..] == before[1..] + [t] + after;
      var x := LowerPushed(before[0].operand, n);
      LoopThrough(before[1..], t, after, delayed[..k] + [before[0].op], x.next);
    }
  }

  /** The code of a list is the code of its two halves around the split, then the operator. */
  lemma LoopSplits(rest: seq<H.Term>, n: nat)
    requires rest != []
    ensures var k := H.SplitPoint(rest);
      var a := LowerTerms(rest[..k], [], n);
      var x := LowerPushed(rest[k].operand, a.next);
      var b := LowerTerms(rest[k + 1..], [], x.next);
      LowerTerms(rest, [], n) == Piece(a.code + (x.code + b.code) + DoMathOperation(rest[k].op), b.next)
  {
    hide LowerPushed, LowerTerms, H.Precedence, DoMathOperation;
    var k := H.SplitPoint(rest);
    var t := rest[k];
    assert rest == rest[..k] + [t] + rest[k + 1..];
    LoopThrough(rest[..k], t, rest[k + 1..], [], n);
    var a := LowerTerms(rest[..k], [], n);
    var x := LowerPushed(t.operand, a.next);
    LoopOver(rest[k + 1..], [t.op], [], x.next, H.Precedence(t.op));
    assert [t.op] + [] == [t.op];
    assert Flush([t.op]) == DoMathOperation(t.op) + Flush([]);
  }

  ghost predicate StrictlyIncreasing(delayed: seq<H.MathToken>) {
    forall i, j :: 0 <= i < j < |delayed| ==> H.Precedence(delayed[i]) < H.Precedence(delayed[j])
  }

  lemma {:induction false} PrecedenceBoundsIndex(delayed: seq<H.MathToken>, i: nat)
    requires StrictlyIncreasing(delayed) && i < |delayed|
    ensures i <= H.Precedence(delayed[i])
  {
    if i > 0 {
      PrecedenceBoundsIndex(delayed, i - 1);
    }
  }

  /** The delayed operators always have strictly increasing precedence, so there are at most three. */
  lemma DelayedStaysSmall(delayed: seq<H.MathToken>, op: H.MathToken)
    requires StrictlyIncreasing(delayed)
    ensures var kept := delayed[..Keep(delayed, H.Precedence(op))] + [op];
      StrictlyIncreasing(kept) && |kept| <= 3
  {
    var kept := delayed[..Keep(delayed, H.Precedence(op))] + [op];
    PrecedenceBoundsIndex(kept, |kept| - 1);
  }
}
