/** How condition chains read: the code gives every chain its right-nested meaning. That is the usual
    meaning, in which && binds tighter than ||, exactly for chains with no && before a ||. */
module Chains {
  import opened Words
  import opened Environment
  import H = Hir

  /** No && stands before a ||. */
  predicate OrsFirst(links: seq<H.Link>) {
    forall i, j :: 0 <= i < j < |links| ==> !(links[i].chain.BoolAnd? && links[j].chain.BoolOr?)
  }

  /** The links after the first ||, and the comparison there, if there is one. */
  function AfterOr(links: seq<H.Link>): (r: Option<nat>)
    ensures r.Some? ==> r.value < |links| && links[r.value].chain.BoolOr?
    ensures r.None? ==> forall i :: 0 <= i < |links| ==> links[i].chain.BoolAnd?
  {
    if links == [] then None
    else if links[0].chain.BoolOr? then Some(0)
    else
      var rest := AfterOr(links[1..]);
      if rest.None? then None else Some(rest.value + 1)
  }

  /** The usual short-circuit meaning: a false comparison ends its conjunction and the next one is
      tried; a true one before a || decides the whole chain. */
  ghost function EvalTight(w: World, locals: map<nat, Word>, trace: seq<Event>, parent: H.Expr,
                           head: H.Comparison, links: seq<H.Link>): H.Value
    requires H.ComparisonBelow(head, parent) && H.LinksBelow(links, parent)
    decreases |links|
  {
    var x := H.EvalComparison(w, locals, trace, parent, head);
    if x.Fault? || links == [] then x
    else if links[0].chain.BoolOr? then
      if x.v != 0 then x else EvalTight(w, locals, x.trace, parent, links[0].comparison, links[1..])
    else if x.v != 0 then EvalTight(w, locals, x.trace, parent, links[0].comparison, links[1..])
    else
      var k := AfterOr(links);
      if k.None? then x
      else EvalTight(w, locals, x.trace, parent, links[k.value].comparison, links[k.value + 1..])
  }

  /** On chains with no && before a || the two meanings agree: same value, same calls, same faults. */
  lemma {:induction false} OrsFirstAgree(w: World, locals: map<nat, Word>, trace: seq<Event>, parent: H.Expr,
                                         head: H.Comparison, links: seq<H.Link>)
    requires H.ComparisonBelow(head, parent) && H.LinksBelow(links, parent) && OrsFirst(links)
    ensures H.EvalChain(w, locals, trace, parent, head, links) == EvalTight(w, locals, trace, parent, head, links)
    decreases |links|
  {
    hide H.EvalComparison;
    var x := H.EvalComparison(w, locals, trace, parent, head);
    if x.Val? && links != [] {
      assert forall i :: 0 <= i < |links| - 1 ==> links[1..][i] == links[i + 1];
      OrsFirstAgree(w, locals, x.trace, parent, links[0].comparison, links[1..]);
    }
  }

  // ----- All values -----

  /** The right-nested value of a chain of truth values. */
  function RightNested(vs: seq<bool>, ops: seq<H.ChainToken>): bool
    requires |vs| == |ops| + 1
    decreases |ops|
  {
    if ops == [] then vs[0]
    else if ops[0].BoolOr? then vs[0] || RightNested(vs[1..], ops[1..])
    else vs[0] && RightNested(vs[1..], ops[1..])
  }

  /** Does the conjunction that starts the chain hold, and does any later one? */
  function Tight(vs: seq<bool>, ops: seq<H.ChainToken>): bool
    requires |vs| == |ops| + 1
  {
    Conjunction(vs, ops) || LaterConjunction(vs, ops)
  }

  predicate Conjunction(vs: seq<bool>, ops: seq<H.ChainToken>)
    requires |vs| == |ops| + 1
    decreases |ops|
  {
    vs[0] && (ops == [] || ops[0].BoolOr? || Conjunction(vs[1..], ops[1..]))
  }

  predicate LaterConjunction(vs: seq<bool>, ops: seq<H.ChainToken>)
    requires |vs| == |ops| + 1
    decreases |ops|
  {
    ops != [] && ((ops[0].BoolOr? && Conjunction(vs[1..], ops[1..])) || LaterConjunction(vs[1..], ops[1..]))
  }

  predicate OpsOrsFirst(ops: seq<H.ChainToken>) {
    forall i, j :: 0 <= i < j < |ops| ==> !(ops[i].BoolAnd? && ops[j].BoolOr?)
  }

  /** The two readings agree on given truth values. */
  predicate ReadAlike(vs: seq<bool>, ops: seq<H.ChainToken>) {
    |vs| == |ops| + 1 && RightNested(vs, ops) == Tight(vs, ops)
  }

  lemma {:induction false} OnlyAnds(vs: seq<bool>, ops: seq<H.ChainToken>)
    requires |vs| == |ops| + 1 && forall i :: 0 <= i < |ops| ==> ops[i].BoolAnd?
    ensures RightNested(vs, ops) == Conjunction(vs, ops) && !LaterConjunction(vs, ops)
    decreases |ops|
  {
    if ops != [] {
      OnlyAnds(vs[1..], ops[1..]);
    }
  }

  lemma {:induction false} OrsFirstReadAlike(vs: seq<bool>, ops: seq<H.ChainToken>)
    requires |vs| == |ops| + 1 && OpsOrsFirst(ops)
    ensures ReadAlike(vs, ops)
    decreases |ops|
  {
    if ops != [] {
      if ops[0].BoolOr? {
        OrsFirstReadAlike(vs[1..], ops[1..]);
      } else {
        forall i | 0 <= i < |ops|
          ensures ops[i].BoolAnd?
        {
        }
        OnlyAnds(vs, ops);
      }
    }
  }

  /** False up to and including position k, true from there on. */
  function FalseThenTrue(n: nat, k: nat): seq<bool> {
    seq(n, i => i > k)
  }

  lemma {:induction false} AllTrue(vs: seq<bool>, ops: seq<H.ChainToken>)
    requires |vs| == |ops| + 1 && forall i :: 0 <= i < |vs| ==> vs[i]
    ensures Conjunction(vs, ops)
    decreases |ops|
  {
    if ops != [] {
      AllTrue(vs[1..], ops[1..]);
    }
  }

  /** A conjunction further on that holds makes the tight reading true. */
  lemma {:induction false} LaterHolds(vs: seq<bool>, ops: seq<H.ChainToken>, j: nat)
    requires |vs| == |ops| + 1 && j < |ops| && ops[j].BoolOr? && forall i :: j < i < |vs| ==> vs[i]
    ensures LaterConjunction(vs, ops)
    decreases j
  {
    if j == 0 {
      AllTrue(vs[1..], ops[1..]);
    } else {
      LaterHolds(vs[1..], ops[1..], j - 1);
    }
  }

  /** A false value at an && with only || and false values before it makes the nested reading false. */
  lemma {:induction false} NestedStops(vs: seq<bool>, ops: seq<H.ChainToken>, i: nat)
    requires |vs| == |ops| + 1 && i < |ops| && ops[i].BoolAnd? && forall k :: 0 <= k <= i ==> !vs[k]
    ensures !RightNested(vs, ops)
    decreases i
  {
    if i > 0 {
      NestedStops(vs[1..], ops[1..], i - 1);
    }
  }

  /** The right-nested reading is the usual one for all truth values exactly when no && stands before
      a ||. */
  lemma ReadingsAgree(ops: seq<H.ChainToken>)
    ensures (forall vs: seq<bool> :: |vs| == |ops| + 1 ==> ReadAlike(vs, ops)) <==> OpsOrsFirst(ops)
  {
    if OpsOrsFirst(ops) {
      forall vs: seq<bool> | |vs| == |ops| + 1
        ensures ReadAlike(vs, ops)
      {
        OrsFirstReadAlike(vs, ops);
      }
    } else {
      var i, j :| 0 <= i < j < |ops| && ops[i].BoolAnd? && ops[j].BoolOr?;
      var vs := FalseThenTrue(|ops| + 1, j);
      NestedStops(vs, ops, i);
      LaterHolds(vs, ops, j);
      assert !ReadAlike(vs, ops);
    }
  }
}
