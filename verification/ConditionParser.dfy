/** How the parser builds the flat list of a condition: bare booleans get a comparison with true, as
    long as the flag carried by the last operator says so. */
module ConditionParser {
  import opened Words
  import opened Environment
  import H = Hir

  datatype Operator = Compare(compare: H.CompareToken) | Chain(chain: H.ChainToken)

  datatype Node = ValueNode(e: H.Expr) | OperatorNode(op: Operator, wasSimple: bool)

  /** An operator and the value after it, as they come from the tokens. */
  datatype Token = Token(op: Operator, e: H.Expr)

  const TRUE_VALUE: H.Expr := H.Literal(1)

  /** Is the last value so far a bare boolean? The flag is read off the last operator. */
  predicate Simple(nodes: seq<Node>) {
    |nodes| == 1 || (|nodes| >= 2 && nodes[|nodes| - 2].OperatorNode? && nodes[|nodes| - 2].wasSimple)
  }

  function WithTrue(nodes: seq<Node>): seq<Node> {
    nodes + [OperatorNode(Compare(H.Eq), true), ValueNode(TRUE_VALUE)]
  }

  function Pushed(nodes: seq<Node>, t: Token): seq<Node> {
    var simple := t.op.Chain? && Simple(nodes);
    (if simple then WithTrue(nodes) else nodes) + [OperatorNode(t.op, simple), ValueNode(t.e)]
  }

  function AllPushed(nodes: seq<Node>, ts: seq<Token>): seq<Node>
    decreases |ts|
  {
    if ts == [] then nodes else AllPushed(Pushed(nodes, ts[0]), ts[1..])
  }

  function Closed(nodes: seq<Node>): seq<Node> {
    if Simple(nodes) then WithTrue(nodes) else nodes
  }

  function Parsed(first: H.Expr, ts: seq<Token>): seq<Node> {
    Closed(AllPushed([ValueNode(first)], ts))
  }

  class Parser {
    var nodes: seq<Node>

    constructor ()
      ensures nodes == []
    {
      nodes := [];
    }

    method PushSimpleComparison() returns (pushed: bool)
      requires nodes != []
      modifies this
      ensures pushed == Simple(old(nodes))
      ensures nodes == if pushed then WithTrue(old(nodes)) else old(nodes)
    {
      var last := if |nodes| == 1 then nodes[0] else nodes[|nodes| - 2];
      if |nodes| == 1 || (last.OperatorNode? && last.wasSimple) {
        nodes := nodes + [OperatorNode(Compare(H.Eq), true)];
        nodes := nodes + [ValueNode(TRUE_VALUE)];
        assert nodes == WithTrue(old(nodes));
        return true;
      }
      return false;
    }

    method ParseCondition(first: H.Expr, ts: seq<Token>)
      modifies this
      ensures nodes == Parsed(first, ts)
    {
      nodes := [ValueNode(first)];
      var i := 0;
      assert ts[0..] == ts;
      while i < |ts|
        invariant 0 <= i <= |ts| && nodes != []
        invariant AllPushed(nodes, ts[i..]) == AllPushed([ValueNode(first)], ts)
      {
        ghost var before := nodes;
        var wasSimple := false;
        if ts[i].op.Chain? {
          wasSimple := PushSimpleComparison();
        }
        nodes := nodes + [OperatorNode(ts[i].op, wasSimple)];
        nodes := nodes + [ValueNode(ts[i].e)];
        assert nodes == Pushed(before, ts[i]);
        assert ts[i..][0] == ts[i] && ts[i..][1..] == ts[i + 1..];
        i := i + 1;
      }
      var unused := PushSimpleComparison();
    }
  }

  // ----- Chains as they are written -----

  /** A term of a chain: a bare boolean, or a comparison. */
  datatype Term = Bare(e: H.Expr) | Compared(lhs: H.Expr, op: H.CompareToken, rhs: H.Expr)

  datatype Link = Link(chain: H.ChainToken, term: Term)

  function FirstValue(t: Term): H.Expr {
    if t.Bare? then t.e else t.lhs
  }

  function OwnTokens(t: Term): seq<Token> {
    if t.Bare? then [] else [Token(Compare(t.op), t.rhs)]
  }

  function LinkTokens(links: seq<Link>): seq<Token> {
    if links == [] then []
    else [Token(Chain(links[0].chain), FirstValue(links[0].term))] + OwnTokens(links[0].term) + LinkTokens(links[1..])
  }

  /** What the parser makes of a chain. */
  function ParsedChain(head: Term, links: seq<Link>): seq<Node> {
    Parsed(FirstValue(head), OwnTokens(head) + LinkTokens(links))
  }

  /** No bare boolean follows a comparison. */
  predicate BareFirst(head: Term, links: seq<Link>)
    decreases |links|
  {
    links == [] || ((head.Compared? ==> links[0].term.Compared?) && BareFirst(links[0].term, links[1..]))
  }

  /** A comparison operator at the first of every four positions, a chain operator at the third. */
  predicate InPlace(nodes: seq<Node>, k: nat)
    requires k < |nodes|
  {
    match k % 4
    case 1 => nodes[k].OperatorNode? && nodes[k].op.Compare?
    case 3 => nodes[k].OperatorNode? && nodes[k].op.Chain?
    case _ => nodes[k].ValueNode?
  }

  predicate Regular(nodes: seq<Node>) {
    forall k :: 0 <= k < |nodes| ==> InPlace(nodes, k)
  }

  /** The shape the lowering goes through in steps of four. */
  predicate WellShaped(nodes: seq<Node>) {
    |nodes| % 4 == 3 && Regular(nodes)
  }

  lemma {:induction false} PushedStays(nodes: seq<Node>, ts: seq<Token>)
    ensures nodes <= Closed(AllPushed(nodes, ts))
    decreases |ts|
  {
    if ts != [] {
      PushedStays(Pushed(nodes, ts[0]), ts[1..]);
    }
  }

  lemma AllPushedSplit(nodes: seq<Node>, t: Token, ts: seq<Token>)
    ensures AllPushed(nodes, [t] + ts) == AllPushed(Pushed(nodes, t), ts)
  {
    hide Pushed;
    assert ([t] + ts)[1..] == ts;
  }

  /** An operator and a value appended in their places. */
  lemma RegularAppend(nodes: seq<Node>, op: Operator, wasSimple: bool, e: H.Expr)
    requires Regular(nodes) && ((|nodes| % 4 == 1 && op.Compare?) || (|nodes| % 4 == 3 && op.Chain?))
    ensures Regular(nodes + [OperatorNode(op, wasSimple), ValueNode(e)])
  {
    var after := nodes + [OperatorNode(op, wasSimple), ValueNode(e)];
    forall k | 0 <= k < |after|
      ensures InPlace(after, k)
    {
      if k < |nodes| {
        assert InPlace(nodes, k);
      }
    }
  }

  /** After a bare boolean that will get its comparison. */
  predicate Pending(nodes: seq<Node>) {
    |nodes| % 4 == 1 && Regular(nodes) && Simple(nodes)
  }

  /** After a whole comparison that was written out. */
  predicate Complete(nodes: seq<Node>) {
    |nodes| % 4 == 3 && Regular(nodes) && !Simple(nodes)
  }

  /** After a bare boolean that gets none. */
  predicate Lost(nodes: seq<Node>) {
    |nodes| % 4 == 1 && |nodes| > 1 && !Simple(nodes)
  }

  /** The state after a term, given the state and the term before it. */
  predicate Follows(nodes: seq<Node>, t: Term) {
    if t.Bare? then Pending(nodes) else Complete(nodes)
  }

  lemma {:induction false} ChainShape(nodes: seq<Node>, t: Term, links: seq<Link>)
    requires Follows(nodes, t)
    ensures WellShaped(Closed(AllPushed(nodes, LinkTokens(links)))) <==> BareFirst(t, links)
    decreases |links|
  {
    hide Pushed, Regular;
    if links == [] {
      if t.Bare? {
        RegularAppend(nodes, Compare(H.Eq), true, TRUE_VALUE);
      }
    } else {
      var next := links[0].term;
      var rest := LinkTokens(links[1..]);
      var chain := Token(Chain(links[0].chain), FirstValue(next));
      var n1 := Pushed(nodes, chain);
      LinkStarts(nodes, t, chain);
      if next.Compared? {
        var n2 := Pushed(n1, Token(Compare(next.op), next.rhs));
        ComparisonEnds(n1, Token(Compare(next.op), next.rhs));
        assert LinkTokens(links) == [chain] + ([Token(Compare(next.op), next.rhs)] + rest);
        AllPushedSplit(nodes, chain, [Token(Compare(next.op), next.rhs)] + rest);
        AllPushedSplit(n1, Token(Compare(next.op), next.rhs), rest);
        ChainShape(n2, next, links[1..]);
      } else {
        assert LinkTokens(links) == [chain] + rest;
        AllPushedSplit(nodes, chain, rest);
        if t.Bare? {
          ChainShape(n1, next, links[1..]);
        } else {
          LostShape(n1, links[1..]);
        }
      }
    }
  }

  /** A chain operator closes what was pending. */
  lemma LinkStarts(nodes: seq<Node>, t: Term, chain: Token)
    requires Follows(nodes, t) && chain.op.Chain?
    ensures var n := Pushed(nodes, chain);
      |n| % 4 == 1 && Regular(n) && |n| > 1 && (if t.Bare? then Pending(n) else Lost(n))
  {
    hide Regular;
    if t.Bare? {
      RegularAppend(nodes, Compare(H.Eq), true, TRUE_VALUE);
      RegularAppend(WithTrue(nodes), chain.op, true, chain.e);
    } else {
      RegularAppend(nodes, chain.op, false, chain.e);
    }
  }

  lemma ComparisonEnds(nodes: seq<Node>, t: Token)
    requires |nodes| % 4 == 1 && Regular(nodes) && t.op.Compare?
    ensures Complete(Pushed(nodes, t))
  {
    hide Regular;
    RegularAppend(nodes, t.op, false, t.e);
  }

  lemma LostShape(nodes: seq<Node>, links: seq<Link>)
    requires Lost(nodes)
    ensures !WellShaped(Closed(AllPushed(nodes, LinkTokens(links))))
  {
    if links != [] {
      var chain := Token(Chain(links[0].chain), FirstValue(links[0].term));
      var rest := OwnTokens(links[0].term) + LinkTokens(links[1..]);
      assert LinkTokens(links) == [chain] + rest;
      AllPushedSplit(nodes, chain, rest);
      var n := Pushed(nodes, chain);
      PushedStays(n, rest);
      var all := Closed(AllPushed(n, rest));
      assert all[|nodes|] == n[|nodes|] == OperatorNode(chain.op, false);
      assert !InPlace(all, |nodes|);
    }
  }

  /** The parser produces the shape the lowering needs exactly for the chains in which no bare boolean
      follows a comparison. */
  lemma ParsedShape(head: Term, links: seq<Link>)
    ensures WellShaped(ParsedChain(head, links)) <==> BareFirst(head, links)
  {
    hide Pushed, Regular;
    var start := [ValueNode(FirstValue(head))];
    StartRegular(FirstValue(head));
    if head.Compared? {
      ComparisonEnds(start, Token(Compare(head.op), head.rhs));
      AllPushedSplit(start, Token(Compare(head.op), head.rhs), LinkTokens(links));
      ChainShape(Pushed(start, Token(Compare(head.op), head.rhs)), head, links);
    } else {
      assert OwnTokens(head) + LinkTokens(links) == LinkTokens(links);
      ChainShape(start, head, links);
    }
  }

  lemma StartRegular(e: H.Expr)
    ensures Regular([ValueNode(e)]) && Simple([ValueNode(e)])
  {
  }

  // ----- The condition the lowering reads off -----

  /** The comparisons at the steps of four, and the chain operators between them. */
  function ReadComparison(nodes: seq<Node>): H.Comparison
    requires |nodes| >= 3 && Regular(nodes)
  {
    assert InPlace(nodes, 0) && InPlace(nodes, 1) && InPlace(nodes, 2);
    H.Comparison(nodes[0].e, nodes[1].op.compare, nodes[2].e)
  }

  function ReadLinks(nodes: seq<Node>): seq<H.Link>
    requires WellShaped(nodes)
    decreases |nodes|
  {
    if |nodes| == 3 then []
    else
      assert InPlace(nodes, 3);
      RestShaped(nodes);
      [H.Link(nodes[3].op.chain, ReadComparison(nodes[4..]))] + ReadLinks(nodes[4..])
  }

  lemma RestShaped(nodes: seq<Node>)
    requires WellShaped(nodes) && |nodes| > 3
    ensures WellShaped(nodes[4..])
  {
    forall k | 0 <= k < |nodes[4..]|
      ensures InPlace(nodes[4..], k)
    {
      assert InPlace(nodes, k + 4);
    }
  }

  /** A bare boolean b means b == true. */
  function Meant(t: Term): H.Comparison {
    if t.Bare? then H.Comparison(t.e, H.Eq, TRUE_VALUE) else H.Comparison(t.lhs, t.op, t.rhs)
  }

  function MeantLinks(links: seq<Link>): seq<H.Link> {
    if links == [] then [] else [H.Link(links[0].chain, Meant(links[0].term))] + MeantLinks(links[1..])
  }

  /** Nodes that start a chain whose first term has been read whole. */
  function TermNodes(t: Term): seq<Node> {
    if t.Bare? then [ValueNode(t.e), OperatorNode(Compare(H.Eq), true), ValueNode(TRUE_VALUE)]
    else [ValueNode(t.lhs), OperatorNode(Compare(t.op), false), ValueNode(t.rhs)]
  }

  function ChainNodes(head: Term, links: seq<Link>): seq<Node>
    decreases |links|
  {
    if links == [] then TermNodes(head)
    else TermNodes(head) + [OperatorNode(Chain(links[0].chain), head.Bare?)] + ChainNodes(links[0].term, links[1..])
  }

  /** What is in the list once a term's own tokens are pushed. */
  function Unclosed(t: Term): seq<Node> {
    if t.Bare? then [ValueNode(t.e)] else TermNodes(t)
  }

  lemma {:induction false} PushedChain(before: seq<Node>, t: Term, links: seq<Link>)
    requires BareFirst(t, links) && Follows(before + Unclosed(t), t)
    ensures Closed(AllPushed(before + Unclosed(t), LinkTokens(links))) == before + ChainNodes(t, links)
    decreases |links|
  {
    hide Regular, Pushed, TermNodes, Unclosed;
    var nodes := before + Unclosed(t);
    if links == [] {
      ClosedTerm(before, t);
    } else {
      var next := links[0].term;
      var rest := LinkTokens(links[1..]);
      var chain := Token(Chain(links[0].chain), FirstValue(next));
      var n1 := Pushed(nodes, chain);
      var front := before + TermNodes(t) + [OperatorNode(chain.op, t.Bare?)];
      LinkStarts(nodes, t, chain);
      PushedLink(before, t, chain);
      if next.Compared? {
        var compare := Token(Compare(next.op), next.rhs);
        ComparisonEnds(n1, compare);
        assert LinkTokens(links) == [chain] + ([compare] + rest);
        AllPushedSplit(nodes, chain, [compare] + rest);
        AllPushedSplit(n1, compare, rest);
        PushedCompared(front, next);
      } else {
        assert LinkTokens(links) == [chain] + rest;
        AllPushedSplit(nodes, chain, rest);
        PushedBare(front, next);
      }
      PushedChain(front, next, links[1..]);
      Regroup(before, TermNodes(t), OperatorNode(chain.op, t.Bare?), ChainNodes(next, links[1..]));
    }
  }

  lemma Regroup(a: seq<Node>, b: seq<Node>, i: Node, c: seq<Node>)
    ensures a + b + [i] + c == a + (b + [i] + c)
  {
  }

  lemma ClosedTerm(before: seq<Node>, t: Term)
    requires Follows(before + Unclosed(t), t)
    ensures Closed(before + Unclosed(t)) == before + TermNodes(t)
  {
    hide Regular;
  }

  lemma PushedLink(before: seq<Node>, t: Term, chain: Token)
    requires Follows(before + Unclosed(t), t) && chain.op.Chain?
    ensures Pushed(before + Unclosed(t), chain) == before + TermNodes(t) + [OperatorNode(chain.op,
        t.Bare?)] + [ValueNode(chain.e)]
  {
    hide Regular;
  }

  lemma PushedCompared(front: seq<Node>, next: Term)
    requires next.Compared?
    ensures Pushed(front + [ValueNode(FirstValue(next))], Token(Compare(next.op), next.rhs)) == front + Unclosed(next)
  {
  }

  lemma PushedBare(front: seq<Node>, next: Term)
    requires next.Bare?
    ensures front + [ValueNode(FirstValue(next))] == front + Unclosed(next)
  {
  }

  lemma {:induction false} ChainReads(head: Term, links: seq<Link>)
    requires WellShaped(ChainNodes(head, links))
    ensures ReadComparison(ChainNodes(head, links)) == Meant(head)
    ensures ReadLinks(ChainNodes(head, links)) == MeantLinks(links)
    decreases |links|
  {
    hide Regular;
    if links != [] {
      var nodes := ChainNodes(head, links);
      var rest := ChainNodes(links[0].term, links[1..]);
      assert nodes[4..] == rest;
      RestShaped(nodes);
      ChainReads(links[0].term, links[1..]);
    }
  }

  /** For those chains the lowering sees every comparison, in order, with bare booleans compared with
      true and every chain operator in its place. */
  lemma ParsedMeans(head: Term, links: seq<Link>)
    requires BareFirst(head, links)
    ensures var nodes := ParsedChain(head, links);
      WellShaped(nodes) && ReadComparison(nodes) == Meant(head) && ReadLinks(nodes) == MeantLinks(links)
  {
    hide Regular, Pushed;
    ParsedShape(head, links);
    var start := [ValueNode(FirstValue(head))];
    StartRegular(FirstValue(head));
    if head.Compared? {
      var compare := Token(Compare(head.op), head.rhs);
      ComparisonEnds(start, compare);
      AllPushedSplit(start, compare, LinkTokens(links));
      StartCompared(head);
    } else {
      assert OwnTokens(head) + LinkTokens(links) == LinkTokens(links);
    }
    assert [] + Unclosed(head) == Unclosed(head);
    PushedChain([], head, links);
    assert [] + ChainNodes(head, links) == ChainNodes(head, links);
    ChainReads(head, links);
  }

  lemma StartCompared(head: Term)
    requires head.Compared?
    ensures Pushed([ValueNode(head.lhs)], Token(Compare(head.op), head.rhs)) == Unclosed(head)
  {
  }

  // ----- What the condition evaluates to -----

  /** A bare boolean is its own value; a comparison is 1 or 0. */
  ghost function TermValue(w: World, locals: map<nat, Word>, trace: seq<Event>, t: Term): H.Value {
    match t
    case Bare(e) => H.Eval(w, locals, trace, e)
    case Compared(lhs, op, rhs) =>
      var l := H.Eval(w, locals, trace, lhs);
      if l.Fault? then l
      else
        var r := H.Eval(w, locals, l.trace, rhs);
        if r.Fault? then r else H.Val(if H.CompareMeaning(op, l.v, r.v) then 1 else 0, r.trace)
  }

  /** The chain as written: terms from the left, as far as they are needed. */
  ghost function WrittenValue(w: World, locals: map<nat, Word>, trace: seq<Event>, head: Term,
                              links: seq<Link>): H.Value
    decreases |links|
  {
    var x := TermValue(w, locals, trace, head);
    if x.Fault? || links == [] then x
    else if links[0].chain == H.BoolOr && x.v == 1 then x
    else if links[0].chain == H.BoolAnd && x.v == 0 then x
    else WrittenValue(w, locals, x.trace, links[0].term, links[1..])
  }

  /** Whenever it has a value, that is 0 or 1. */
  ghost predicate Boolean(w: World, locals: map<nat, Word>, e: H.Expr) {
    forall trace: seq<Event> :: IsBit(H.Eval(w, locals, trace, e))
  }

  predicate IsBit(x: H.Value) {
    x.Val? ==> x.v == 0 || x.v == 1
  }

  ghost predicate BooleanTerm(w: World, locals: map<nat, Word>, t: Term) {
    t.Bare? ==> Boolean(w, locals, t.e)
  }

  ghost predicate BooleanTerms(w: World, locals: map<nat, Word>, links: seq<Link>) {
    forall i :: 0 <= i < |links| ==> BooleanTerm(w, locals, links[i].term)
  }

  /** Compared with true a boolean stays what it is. */
  lemma MeantValue(w: World, locals: map<nat, Word>, trace: seq<Event>, parent: H.Expr, t: Term)
    requires BooleanTerm(w, locals, t) && H.ComparisonBelow(Meant(t), parent)
    ensures H.EvalComparison(w, locals, trace, parent, Meant(t)) == TermValue(w, locals, trace, t)
    ensures IsBit(TermValue(w, locals, trace, t))
  {
    if t.Bare? {
      assert IsBit(H.Eval(w, locals, trace, t.e));
      var x := H.Eval(w, locals, trace, t.e);
      if x.Val? {
        assert H.Eval(w, locals, x.trace, Meant(t).rhs) == H.Val(1, x.trace);
      }
    }
  }

  lemma {:induction false} MeantChain(w: World, locals: map<nat, Word>, trace: seq<Event>, parent: H.Expr,
                                      head: Term, links: seq<Link>)
    requires H.ComparisonBelow(Meant(head), parent) && H.LinksBelow(MeantLinks(links), parent)
    requires BooleanTerm(w, locals, head) && BooleanTerms(w, locals, links)
    ensures H.EvalChain(w, locals, trace, parent, Meant(head), MeantLinks(links))
      == WrittenValue(w, locals, trace, head, links)
    decreases |links|
  {
    hide Meant, BooleanTerm, TermValue;
    MeantValue(w, locals, trace, parent, head);
    if links != [] {
      var x := TermValue(w, locals, trace, head);
      var all := MeantLinks(links);
      assert all[0] == H.Link(links[0].chain, Meant(links[0].term)) && all[1..] == MeantLinks(links[1..]);
      assert H.ComparisonBelow(all[0].comparison, parent);
      assert H.LinksBelow(all[1..], parent);
      assert BooleanTerm(w, locals, links[0].term);
      MeantChain(w, locals, x.trace, parent, links[0].term, links[1..]);
    }
  }

  /** The condition that is read off the parsed list of a chain has the value of the chain as written,
      with the same calls and up to the same fault, where bare terms are booleans. */
  lemma ParsedValue(w: World, locals: map<nat, Word>, trace: seq<Event>, head: Term, links: seq<Link>)
    requires BareFirst(head, links) && BooleanTerm(w, locals, head) && BooleanTerms(w, locals, links)
    ensures var nodes := ParsedChain(head, links);
      && WellShaped(nodes)
      && H.Eval(w, locals, trace, H.Condition(ReadComparison(nodes), ReadLinks(nodes)))
        == WrittenValue(w, locals, trace, head, links)
  {
    hide Meant, BooleanTerm, TermValue, H.EvalChain, WrittenValue, WellShaped, ParsedChain, ReadComparison, ReadLinks;
    ParsedMeans(head, links);
    var parent := H.Condition(Meant(head), MeantLinks(links));
    PartsOfChain(Meant(head), MeantLinks(links));
    MeantChain(w, locals, trace, parent, head, links);
  }

  lemma PartsOfChain(head: H.Comparison, links: seq<H.Link>)
    ensures var parent := H.Condition(head, links); H.ComparisonBelow(head, parent) && H.LinksBelow(links, parent)
  {
    var parent := H.Condition(head, links);
    forall i | 0 <= i < |links|
      ensures H.ComparisonBelow(links[i].comparison, parent)
    {
      var l: H.Link := links[i];
      assert l < parent;
    }
  }

  /** A bare boolean alone is its own condition. */
  lemma BareIsItself(w: World, locals: map<nat, Word>, trace: seq<Event>, e: H.Expr)
    requires IsBit(H.Eval(w, locals, trace, e))
    ensures var nodes := ParsedChain(Bare(e), []);
      && WellShaped(nodes)
      && H.Eval(w, locals, trace, H.Condition(ReadComparison(nodes), ReadLinks(nodes)))
        == H.Eval(w, locals, trace, e)
  {
    hide H.Eval, WellShaped, ParsedChain, ReadComparison, ReadLinks;
    ParsedMeans(Bare(e), []);
    AloneValue(w, locals, trace, e);
  }

  lemma AloneValue(w: World, locals: map<nat, Word>, trace: seq<Event>, e: H.Expr)
    requires IsBit(H.Eval(w, locals, trace, e))
    ensures H.Eval(w, locals, trace, H.Condition(Meant(Bare(e)), [])) == H.Eval(w, locals, trace, e)
  {
    var c := Meant(Bare(e));
    var parent := H.Condition(c, []);
    var x := H.Eval(w, locals, trace, e);
    if x.Val? {
      assert H.Eval(w, locals, x.trace, c.rhs) == H.Val(1, x.trace);
    }
    assert H.EvalComparison(w, locals, trace, parent, c) == x;
  }
}
