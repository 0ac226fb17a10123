/** The high-level IR: structured statements over nested expressions, with their meaning. */
module Hir {
  import opened Words
  import opened Environment

  datatype MathToken = Plus | Minus | Star | Slash | Percent | And | Or | Xor | Shl | Shr

  datatype CompareToken = Eq | Neq | Lt | Lte | Gt | Gte

  datatype ChainToken = BoolAnd | BoolOr

  datatype UnaryToken = Negate | Complement | BoolNot

  /** `Math` is the flat list first, op, operand, op, operand, ... that the parser builds, and
      `Condition` the flat list of comparisons joined by && and ||. */
  datatype Expr =
    | Literal(n: Word)
    | Variable(uid: nat)
    | Math(first: Expr, rest: seq<Term>)
    | Condition(head: Comparison, links: seq<Link>)
    | Unary(unary: UnaryToken, operand: Expr)
    | Cast(value: Expr)
    | Call(callee: nat, arguments: seq<Expr>)

  datatype Term = Term(op: MathToken, operand: Expr)

  datatype Comparison = Comparison(lhs: Expr, op: CompareToken, rhs: Expr)

  datatype Link = Link(chain: ChainToken, comparison: Comparison)

  datatype Stmt =
    | Skip
    | Block(body: seq<Stmt>)
    | Declare(uid: nat, initial: Option<Expr>)
    | Assign(uid: nat, value: Expr)
    | CallStmt(callee: nat, arguments: seq<Expr>)
    | If(condition: Expr, body: seq<Stmt>, otherwise: seq<Stmt>)
    | While(condition: Expr, body: seq<Stmt>, doFirst: bool)
    | For(counter: nat, initializer: Option<Expr>, condition: Expr, increment: Expr,
          decrement: bool, body: seq<Stmt>)
    | Break
    | Continue
    | Return(result: Option<Expr>)

  // ----- Meaning of expressions -----

  /** A value, or a fault of the processor; either way with the calls made so far. */
  datatype Value = Val(v: Word, trace: seq<Event>) | Fault(trace: seq<Event>)

  function Precedence(op: MathToken): nat {
    match op
    case Shl => 0
    case Shr => 0
    case And => 0
    case Or => 0
    case Xor => 0
    case Plus => 1
    case Minus => 1
    case _ => 2
  }

  function MathMeaning(op: MathToken, a: Word, b: Word): Option<Word> {
    match op
    case Plus => Some(Wrap(a + b))
    case Minus => Some(Wrap(a - b))
    case Star => Some(Wrap(a * b))
    case Slash => if DivFaults(a, b) then None else Some(Wrap(TruncDiv(a, b)))
    case Percent => if DivFaults(a, b) then None else Some(Wrap(TruncMod(a, b)))
    case And => Some(BitwiseWord(BitAnd, a, b))
    case Or => Some(BitwiseWord(BitOr, a, b))
    case Xor => Some(BitwiseWord(BitXor, a, b))
    case Shl => Some(ShiftLeft(a, b))
    case Shr => Some(ShiftRight(a, b))
  }

  predicate CompareMeaning(op: CompareToken, a: Word, b: Word) {
    match op
    case Eq => a == b
    case Neq => a != b
    case Lt => a < b
    case Lte => a <= b
    case Gt => a > b
    case Gte => a >= b
  }

  function UnaryMeaning(op: UnaryToken, a: Word): Word {
    match op
    case Negate => Wrap(0 - a)
    case Complement => -1 - a
    case BoolNot => FromBool(a == 0)
  }

  /** Where the tree of a flat list splits: at the rightmost operator of the lowest precedence. */
  function SplitPoint(rest: seq<Term>): (k: nat)
    requires rest != []
    ensures k < |rest|
    ensures forall i :: 0 <= i < k ==> Precedence(rest[i].op) >= Precedence(rest[k].op)
    ensures forall i :: k < i < |rest| ==> Precedence(rest[i].op) > Precedence(rest[k].op)
  {
    if |rest| == 1 then 0
    else
      var j := SplitPoint(rest[1..]);
      if Precedence(rest[0].op) < Precedence(rest[j + 1].op) then 0 else j + 1
  }

  ghost predicate TermsBelow(rest: seq<Term>, parent: Expr) {
    forall i :: 0 <= i < |rest| ==> rest[i].operand < parent
  }

  ghost predicate ComparisonBelow(c: Comparison, parent: Expr) {
    c.lhs < parent && c.rhs < parent
  }

  ghost predicate LinksBelow(links: seq<Link>, parent: Expr) {
    forall i :: 0 <= i < |links| ==> ComparisonBelow(links[i].comparison, parent)
  }

  ghost predicate AllBelow(es: seq<Expr>, parent: Expr) {
    forall i :: 0 <= i < |es| ==> es[i] < parent
  }

  ghost function Eval(w: World, locals: map<nat, Word>, trace: seq<Event>, e: Expr): Value
    decreases e
  {
    match e
    case Literal(n) => Val(n, trace)
    case Variable(uid) => Val(ReadLocal(w, locals, uid), trace)
    case Math(first, rest) => EvalMath(w, locals, trace, e, first, rest)
    case Condition(head, links) => EvalChain(w, locals, trace, e, head, links)
    case Unary(unary, operand) =>
      var x := Eval(w, locals, trace, operand);
      if x.Fault? then x else Val(UnaryMeaning(unary, x.v), x.trace)
    case Cast(value) => Eval(w, locals, trace, value)
    case Call(callee, arguments) => EvalCall(w, locals, trace, e, callee, arguments)
  }

  /** The value of the tree of a flat list: left subtree, right subtree, then the operator. */
  ghost function EvalMath(w: World, locals: map<nat, Word>, trace: seq<Event>, parent: Expr,
                          first: Expr, rest: seq<Term>): Value
    requires first < parent && TermsBelow(rest, parent)
    decreases parent, |rest|
  {
    if rest == [] then Eval(w, locals, trace, first)
    else
      var k := SplitPoint(rest);
      var l := EvalMath(w, locals, trace, parent, first, rest[..k]);
      if l.Fault? then l
      else
        var r := EvalMath(w, locals, l.trace, parent, rest[k].operand, rest[k + 1..]);
        if r.Fault? then r else Combine(rest[k].op, l.v, r)
  }

  function Combine(op: MathToken, l: Word, r: Value): Value
    requires r.Val?
  {
    var x := MathMeaning(op, l, r.v);
    if x.None? then Fault(r.trace) else Val(x.value, r.trace)
  }

  ghost function EvalComparison(w: World, locals: map<nat, Word>, trace: seq<Event>, parent: Expr,
                                c: Comparison): Value
    requires ComparisonBelow(c, parent)
    decreases parent, 0
  {
    var l := Eval(w, locals, trace, c.lhs);
    if l.Fault? then l
    else
      var r := Eval(w, locals, l.trace, c.rhs);
      if r.Fault? then r else Val(FromBool(CompareMeaning(c.op, l.v, r.v)), r.trace)
  }

  /** A chain c0 op0 c1 op1 ... means c0 op0 (c1 op1 (...)), each operator short-circuiting. */
  ghost function EvalChain(w: World, locals: map<nat, Word>, trace: seq<Event>, parent: Expr,
                           head: Comparison, links: seq<Link>): Value
    requires ComparisonBelow(head, parent) && LinksBelow(links, parent)
    decreases parent, |links| + 1
  {
    var x := EvalComparison(w, locals, trace, parent, head);
    if x.Fault? || links == [] then x
    else if (links[0].chain == BoolOr) == (x.v != 0) then x
    else EvalChain(w, locals, x.trace, parent, links[0].comparison, links[1..])
  }

  datatype Values = Vals(vs: seq<Word>, trace: seq<Event>) | ArgumentFault(trace: seq<Event>)

  /** The arguments of one kind, complex ones or the others, evaluated right to left; an argument of
      the other kind stands as 0. */
  ghost function EvalArguments(w: World, locals: map<nat, Word>, trace: seq<Event>, parent: Expr,
                               es: seq<Expr>, complex: bool): (r: Values)
    requires AllBelow(es, parent)
    ensures r.Vals? ==> |r.vs| == |es|
    decreases parent, |es|
  {
    if es == [] then Vals([], trace)
    else
      var mine := IsComplex(es[|es| - 1]) == complex;
      var x := if mine then Eval(w, locals, trace, es[|es| - 1]) else Val(0, trace);
      if x.Fault? then ArgumentFault(x.trace)
      else
        var before := EvalArguments(w, locals, x.trace, parent, es[..|es| - 1], complex);
        if before.ArgumentFault? then before else Vals(before.vs + [x.v], before.trace)
  }

  /** The values of the complex arguments and of the others together. */
  function Merged(es: seq<Expr>, first: seq<Word>, second: seq<Word>): (vs: seq<Word>)
    requires |first| == |second| == |es|
    ensures |vs| == |es|
  {
    seq(|es|, i requires 0 <= i < |es| => if IsComplex(es[i]) then first[i] else second[i])
  }

  /** Complex arguments are evaluated before the others. */
  ghost function EvalCall(w: World, locals: map<nat, Word>, trace: seq<Event>, parent: Expr,
                          callee: nat, es: seq<Expr>): Value
    requires AllBelow(es, parent)
    decreases parent, |es| + 1
  {
    var first := EvalArguments(w, locals, trace, parent, es, true);
    if first.ArgumentFault? then Fault(first.trace)
    else
      var second := EvalArguments(w, locals, first.trace, parent, es, false);
      if second.ArgumentFault? then Fault(second.trace)
      else
        var after := second.trace + [Event(callee, Merged(es, first.vs, second.vs))];
        Val(w.result(after), after)
  }

  // ----- Meaning of statements -----

  datatype Outcome = Normal | Broke | Continued | Returned(value: Option<Word>)

  datatype Result =
    | Done(outcome: Outcome, locals: map<nat, Word>, trace: seq<Event>)
    | Faulted(locals: map<nat, Word>, trace: seq<Event>)
    | OutOfFuel

  /** `fuel` bounds the number of loop turns on any path; a run terminates when some fuel suffices. */
  ghost function Exec(w: World, fuel: nat, locals: map<nat, Word>, trace: seq<Event>, s: Stmt): Result
    decreases fuel, s
  {
    match s
    case Skip => Done(Normal, locals, trace)
    case Block(body) => ExecAll(w, fuel, locals, trace, body)
    case Declare(uid, initial) =>
      if initial.None? then Done(Normal, locals, trace) else Store(w, locals, trace, uid, initial.value)
    case Assign(uid, value) => Store(w, locals, trace, uid, value)
    case CallStmt(callee, arguments) =>
      var x := Eval(w, locals, trace, Call(callee, arguments));
      if x.Fault? then Faulted(locals, x.trace) else Done(Normal, locals, x.trace)
    case If(condition, body, otherwise) =>
      var c := Eval(w, locals, trace, condition);
      if c.Fault? then Faulted(locals, c.trace)
      else if c.v != 0 then ExecAll(w, fuel, locals, c.trace, body)
      else ExecAll(w, fuel, locals, c.trace, otherwise)
    case While(condition, body, doFirst) =>
      if fuel == 0 then OutOfFuel
      else if doFirst then
        var b := ExecAll(w, fuel - 1, locals, trace, body);
        if !EndsTurn(b) then AfterLoop(b)
        else
          var c := Eval(w, b.locals, b.trace, condition);
          if c.Fault? then Faulted(b.locals, c.trace)
          else if c.v == 0 then Done(Normal, b.locals, c.trace)
          else Exec(w, fuel - 1, b.locals, c.trace, s)
      else
        var c := Eval(w, locals, trace, condition);
        if c.Fault? then Faulted(locals, c.trace)
        else if c.v == 0 then Done(Normal, locals, c.trace)
        else
          var b := ExecAll(w, fuel - 1, locals, c.trace, body);
          if EndsTurn(b) then Exec(w, fuel - 1, b.locals, b.trace, s) else AfterLoop(b)
    case For(counter, initializer, condition, increment, decrement, body) =>
      var x := EvalInitializer(w, locals, trace, initializer);
      if x.Fault? then Faulted(locals, x.trace)
      else ExecTurns(w, fuel, locals[counter := x.v], x.trace, s)
    case Break => Done(Broke, locals, trace)
    case Continue => Done(Continued, locals, trace)
    case Return(result) =>
      if result.None? then Done(Returned(None), locals, trace)
      else
        var x := Eval(w, locals, trace, result.value);
        if x.Fault? then Faulted(locals, x.trace) else Done(Returned(Some(x.v)), locals, x.trace)
  }

  ghost function Store(w: World, locals: map<nat, Word>, trace: seq<Event>, uid: nat, e: Expr): Result {
    var x := Eval(w, locals, trace, e);
    if x.Fault? then Faulted(locals, x.trace) else Done(Normal, locals[uid := x.v], x.trace)
  }

  /** A missing initializer is read as 0. */
  ghost function EvalInitializer(w: World, locals: map<nat, Word>, trace: seq<Event>,
                                 initializer: Option<Expr>): Value
  {
    if initializer.None? then Val(0, trace) else Eval(w, locals, trace, initializer.value)
  }

  ghost function ExecAll(w: World, fuel: nat, locals: map<nat, Word>, trace: seq<Event>,
                         ss: seq<Stmt>): Result
    decreases fuel, ss
  {
    if ss == [] then Done(Normal, locals, trace)
    else
      var r := Exec(w, fuel, locals, trace, ss[0]);
      if r.Done? && r.outcome.Normal? then ExecAll(w, fuel, r.locals, r.trace, ss[1..]) else r
  }

  /** Does a run of a loop body go on to the next turn? */
  predicate EndsTurn(b: Result) {
    b.Done? && (b.outcome.Normal? || b.outcome.Continued?)
  }

  /** What a loop makes of a body run that does not go on. */
  function AfterLoop(b: Result): Result
    requires !EndsTurn(b)
  {
    if b.Done? && b.outcome.Broke? then Done(Normal, b.locals, b.trace) else b
  }

  /** The turns of a `for` after its counter is initialised: the bound and the step are evaluated
      again on every turn, and `continue` still advances the counter. */
  ghost function ExecTurns(w: World, fuel: nat, locals: map<nat, Word>, trace: seq<Event>, s: Stmt): Result
    requires s.For?
    decreases fuel, s, 0
  {
    if fuel == 0 then OutOfFuel
    else
      var c := Eval(w, locals, trace, s.condition);
      if c.Fault? then Faulted(locals, c.trace)
      else if c.v == 0 then Done(Normal, locals, c.trace)
      else
        var b := ExecAll(w, fuel - 1, locals, c.trace, s.body);
        if !EndsTurn(b) then AfterLoop(b)
        else
          var step := Eval(w, b.locals, b.trace, s.increment);
          if step.Fault? then Faulted(b.locals, step.trace)
          else
            var advanced := Advance(ReadLocal(w, b.locals, s.counter), step.v, s.decrement);
            ExecTurns(w, fuel - 1, b.locals[s.counter := advanced], step.trace, s)
  }

  function Advance(x: Word, step: Word, decrement: bool): Word {
    if decrement then Wrap(x - step) else Wrap(x + step)
  }

  // ----- The programs the lowering is claimed for -----

  /** Expressions that take more than one instruction and may overwrite registers. */
  predicate IsComplex(e: Expr) {
    match e
    case Call(_, _) => true
    case Math(_, _) => true
    case Condition(_, _) => true
    case Cast(value) => IsComplex(value)
    case _ => false
  }

  const REGISTER_ARGUMENTS: nat := 6

  // The argument register that is the second temporary as well, and the one that takes remainders and
  // the high halves of products.
  const SECOND_PLACE: nat := 3
  const REMAINDER_PLACE: nat := 2

  predicate OperatorSpares(op: MathToken, j: nat) {
    j != SECOND_PLACE && (op.Star? || op.Slash? || op.Percent? ==> j != REMAINDER_PLACE)
  }

  /** Evaluating the expression does not change argument register j: a call changes all of them, an
      operator or a comparison the second temporary, and a product or a division the register of
      remainders. */
  predicate Spares(e: Expr, j: nat) {
    match e
    case Literal(_) => true
    case Variable(_) => true
    case Math(first, rest) => Spares(first, j) && forall i :: 0 <= i < |rest| ==> TermSpares(rest[i], j)
    case Condition(head, links) =>
      ComparisonSpares(head, j) && forall i :: 0 <= i < |links| ==> LinkSpares(links[i], j)
    case Unary(_, operand) => Spares(operand, j)
    case Cast(value) => Spares(value, j)
    case Call(_, _) => false
  }

  predicate TermSpares(t: Term, j: nat) {
    OperatorSpares(t.op, j) && Spares(t.operand, j)
  }

  predicate ComparisonSpares(c: Comparison, j: nat) {
    j != SECOND_PLACE && Spares(c.lhs, j) && Spares(c.rhs, j)
  }

  predicate LinkSpares(l: Link, j: nat) {
    ComparisonSpares(l.comparison, j)
  }

  /** Is argument j in its register when argument i, which is not complex, is evaluated? */
  predicate Filled(es: seq<Expr>, j: nat, i: nat) {
    j < |es| && j < REGISTER_ARGUMENTS && (IsComplex(es[j]) || i < j)
  }

  /** Calls whose arguments survive their own evaluation: an argument that is not complex spares the
      registers filled before it, and no other stack argument stands after a complex one. */
  predicate ArgumentsOk(es: seq<Expr>) {
    && (forall i, j :: 0 <= i < |es| && !IsComplex(es[i]) && 0 <= j < |es| && Filled(es, j, i) ==> Spares(es[i], j))
    && (forall i, j :: REGISTER_ARGUMENTS <= i < j < |es| && IsComplex(es[i]) ==> IsComplex(es[j]))
  }

  predicate ExprOk(e: Expr) {
    match e
    case Literal(_) => true
    case Variable(_) => true
    case Math(first, rest) => ExprOk(first) && forall i :: 0 <= i < |rest| ==> ExprOk(rest[i].operand)
    case Condition(head, links) =>
      ComparisonOk(head) && forall i :: 0 <= i < |links| ==> ComparisonOk(links[i].comparison)
    case Unary(_, operand) => ExprOk(operand)
    case Cast(value) => ExprOk(value)
    case Call(_, arguments) => ArgumentsOk(arguments) && forall i :: 0 <= i < |arguments| ==> ExprOk(arguments[i])
  }

  predicate ComparisonOk(c: Comparison) {
    ExprOk(c.lhs) && ExprOk(c.rhs)
  }

  predicate OptionOk(e: Option<Expr>) {
    e.Some? ==> ExprOk(e.value)
  }

  /** Break and continue occur inside loops only, and every call is one `ExprOk` accepts. */
  predicate StmtOk(s: Stmt, inLoop: bool)
    decreases s
  {
    match s
    case Skip => true
    case Block(body) => forall i :: 0 <= i < |body| ==> StmtOk(body[i], inLoop)
    case Declare(_, initial) => OptionOk(initial)
    case Assign(_, value) => ExprOk(value)
    case CallStmt(callee, arguments) => ExprOk(Call(callee, arguments))
    case If(condition, body, otherwise) =>
      && ExprOk(condition)
      && (forall i :: 0 <= i < |body| ==> StmtOk(body[i], inLoop))
      && (forall i :: 0 <= i < |otherwise| ==> StmtOk(otherwise[i], inLoop))
    case While(condition, body, _) =>
      ExprOk(condition) && forall i :: 0 <= i < |body| ==> StmtOk(body[i], true)
    case For(_, initializer, condition, increment, _, body) =>
      && OptionOk(initializer) && ExprOk(condition) && ExprOk(increment)
      && (forall i :: 0 <= i < |body| ==> StmtOk(body[i], true))
    case Break => inLoop
    case Continue => inLoop
    case Return(result) => OptionOk(result)
  }

  predicate StmtsOk(ss: seq<Stmt>, inLoop: bool) {
    forall i :: 0 <= i < |ss| ==> StmtOk(ss[i], inLoop)
  }
}
