/** `for` loops over ranges: the loop the compiler builds from one, and how often its body runs. */
module TripCount {
  import opened Words
  import opened WordAlgebra
  import opened Environment
  import H = Hir

  /** A range loop as it is written; without a declaration the counter is an existing variable. */
  datatype Range = Range(counter: nat, declared: bool, from: H.Expr, to: H.Expr, step: Option<H.Expr>,
                         reverse: bool, inclusive: bool, body: seq<H.Stmt>)

  function RangeToken(reverse: bool, inclusive: bool): H.CompareToken {
    if reverse then (if inclusive then H.Gte else H.Gt) else if inclusive then H.Lte else H.Lt
  }

  /** Only a declaration passes its initial value on. */
  function ForLoop(r: Range): H.Stmt {
    H.For(r.counter,
          if r.declared then Some(r.from) else None,
          H.Condition(H.Comparison(H.Variable(r.counter), RangeToken(r.reverse, r.inclusive), r.to), []),
          if r.step.Some? then r.step.value else H.Literal(1),
          r.reverse,
          r.body)
  }

  /** How many steps of a size cover a distance. */
  function Steps(distance: int, step: int): nat
    requires step > 0
  {
    if distance <= 0 then 0
    else
      StepsPositive(distance, step);
      (distance + step - 1) / step
  }

  lemma StepsPositive(distance: int, step: int)
    requires distance > 0 && step > 0
    ensures (distance + step - 1) / step > 0
  {
    var q, r := (distance + step - 1) / step, (distance + step - 1) % step;
    assert distance + step - 1 == q * step + r;
    MultipleAtLeast(q, step);
  }

  /** A step less far is one step fewer. */
  lemma OneStepLess(distance: int, step: int)
    requires distance > 0 && step > 0
    ensures Steps(distance, step) == 1 + Steps(distance - step, step)
  {
    if distance - step <= 0 {
      Unique(distance + step - 1, step, 1, distance - 1);
    } else {
      var q, r := (distance - 1) / step, (distance - 1) % step;
      assert distance - 1 == q * step + r;
      assert distance + step - 1 == (q + 1) * step + r;
      Unique(distance + step - 1, step, q + 1, r);
    }
  }

  /** How far the counter is from leaving the range. */
  function Distance(r: Range, at: Word, bound: Word): int {
    (if r.reverse then at - bound else bound - at) + if r.inclusive then 1 else 0
  }

  lemma InRange(r: Range, at: Word, bound: Word)
    ensures H.CompareMeaning(RangeToken(r.reverse, r.inclusive), at, bound) <==> Distance(r, at, bound) > 0
  {
  }

  /** Where the counter ends. */
  function Final(r: Range, at: Word, bound: Word, step: Word): int
    requires step > 0
  {
    var way := Steps(Distance(r, at, bound), step) * step;
    if r.reverse then at - way else at + way
  }

  function WithCounter(r: Range, locals: map<nat, Word>, v: Word): map<nat, Word> {
    locals[r.counter := v]
  }

  /** While a property holds, bound and step have these values, a step that is not written being 1, and the
      body comes back to the next turn with the property, its counter unchanged; the property does not depend
      on the counter. */
  ghost predicate Steady(w: World, r: Range, bound: Word, step: Word, holds: (map<nat, Word>, seq<Event>) -> bool) {
    forall locals: map<nat, Word>, trace: seq<Event> :: holds(locals, trace) ==> SteadyAt(w, r, bound, step, holds,
        locals, trace)
  }

  ghost predicate SteadyAt(w: World, r: Range, bound: Word, step: Word, holds: (map<nat, Word>, seq<Event>) -> bool,
                           locals: map<nat, Word>, trace: seq<Event>)
  {
    && H.Eval(w, locals, trace, r.to) == H.Val(bound, trace)
    && (if r.step.Some? then H.Eval(w, locals, trace, r.step.value) == H.Val(step, trace) else step == 1)
    && (forall v: Word :: holds(WithCounter(r, locals, v), trace))
    && (forall fuel: nat :: BodyReturns(w, r, holds, locals, H.ExecAll(w, fuel, locals, trace, r.body)))
  }

  ghost predicate BodyReturns(w: World, r: Range, holds: (map<nat, Word>, seq<Event>) -> bool, locals: map<nat, Word>,
                              b: H.Result)
  {
    b.OutOfFuel? || (H.EndsTurn(b) && holds(b.locals, b.trace)
                     && ReadLocal(w, b.locals, r.counter) == ReadLocal(w, locals, r.counter))
  }

  /** The number of times the body of a loop is run to its end. */
  ghost function Turns(w: World, fuel: nat, locals: map<nat, Word>, trace: seq<Event>, s: H.Stmt): nat
    requires s.For?
    decreases fuel
  {
    if fuel == 0 then 0
    else
      var c := H.Eval(w, locals, trace, s.condition);
      if c.Fault? || c.v == 0 then 0
      else
        var b := H.ExecAll(w, fuel - 1, locals, c.trace, s.body);
        if !H.EndsTurn(b) then 0
        else
          var step := H.Eval(w, b.locals, b.trace, s.increment);
          if step.Fault? then 1
          else
            var advanced := H.Advance(ReadLocal(w, b.locals, s.counter), step.v, s.decrement);
            1 + Turns(w, fuel - 1, b.locals[s.counter := advanced], step.trace, s)
  }

  lemma RangeTest(w: World, r: Range, bound: Word, locals: map<nat, Word>, trace: seq<Event>)
    requires H.Eval(w, locals, trace, r.to) == H.Val(bound, trace)
    ensures H.Eval(w, locals, trace, ForLoop(r).condition)
      == H.Val(FromBool(Distance(r, ReadLocal(w, locals, r.counter), bound) > 0), trace)
  {
    var c := ForLoop(r).condition;
    InRange(r, ReadLocal(w, locals, r.counter), bound);
    assert H.Eval(w, locals, trace, H.Variable(r.counter)) == H.Val(ReadLocal(w, locals, r.counter), trace);
    assert H.EvalComparison(w, locals, trace, c, c.head)
      == H.Val(FromBool(H.CompareMeaning(RangeToken(r.reverse, r.inclusive), ReadLocal(w, locals, r.counter), bound)),
               trace);
  }

  /** The loop advances by the step as written. */
  lemma StepTaken(w: World, r: Range, bound: Word, step: Word, holds: (map<nat, Word>, seq<Event>) -> bool,
                  locals: map<nat, Word>, trace: seq<Event>)
    requires SteadyAt(w, r, bound, step, holds, locals, trace)
    ensures H.Eval(w, locals, trace, ForLoop(r).increment) == H.Val(step, trace)
  {
  }

  /** A turn moves the counter one step without wrapping, and the end stays where it is. */
  lemma AdvanceMoves(r: Range, at: Word, bound: Word, step: Word)
    requires step > 0 && Distance(r, at, bound) > 0 && -TWO63 <= Final(r, at, bound, step) < TWO63
    ensures var next := H.Advance(at, step, r.reverse);
      && next == (if r.reverse then at - step else at + step)
      && Distance(r, next, bound) == Distance(r, at, bound) - step
      && Final(r, next, bound, step) == Final(r, at, bound, step)
      && Steps(Distance(r, at, bound), step) == 1 + Steps(Distance(r, next, bound), step)
  {
    var d := Distance(r, at, bound);
    OneStepLess(d, step);
    var n := Steps(d - step, step);
    assert (1 + n) * step == step + n * step;
    MultipleAtLeast(n, step);
    assert n * step >= 0;
  }

  /** With the counter left alone by the body, a loop over a range runs it exactly as often as the step
      fits the range, rounded up, and leaves the counter that many steps on; `continue` counts as a
      turn like any other. Only a body that does not end can keep it from that. */
  lemma {:induction false} RangeRuns(w: World, r: Range, bound: Word, step: Word,
                                     holds: (map<nat, Word>, seq<Event>) -> bool,
                                     fuel: nat, locals: map<nat, Word>, trace: seq<Event>)
    requires Steady(w, r, bound, step, holds) && holds(locals, trace) && step > 0
    requires -TWO63 <= Final(r, ReadLocal(w, locals, r.counter), bound, step) < TWO63
    ensures var e := H.ExecTurns(w, fuel, locals, trace, ForLoop(r));
      var at := ReadLocal(w, locals, r.counter);
      var n := Steps(Distance(r, at, bound), step);
      && Turns(w, fuel, locals, trace, ForLoop(r)) <= n
      && (!e.OutOfFuel? ==>
            && e.Done? && e.outcome.Normal? && Turns(w, fuel, locals, trace, ForLoop(r)) == n
            && ReadLocal(w, e.locals, r.counter) == Final(r, at, bound, step))
    decreases fuel
  {
    hide H.Eval, H.ExecAll, Steps, Final, Distance, H.Advance, Steady;
    var s := ForLoop(r);
    var at := ReadLocal(w, locals, r.counter);
    SteadyHere(w, r, bound, step, holds, locals, trace);
    RangeTest(w, r, bound, locals, trace);
    if Distance(r, at, bound) <= 0 {
      EndOfRange(r, at, bound, step);
    } else if fuel > 0 {
      var b := H.ExecAll(w, fuel - 1, locals, trace, r.body);
      assert BodyReturns(w, r, holds, locals, b);
      AdvanceMoves(r, at, bound, step);
      if !b.OutOfFuel? {
        SteadyHere(w, r, bound, step, holds, b.locals, b.trace);
        StepTaken(w, r, bound, step, holds, b.locals, b.trace);
        var next := H.Advance(at, step, r.reverse);
        RangeRuns(w, r, bound, step, holds, fuel - 1, WithCounter(r, b.locals, next), b.trace);
      }
    }
  }

  lemma SteadyHere(w: World, r: Range, bound: Word, step: Word, holds: (map<nat, Word>, seq<Event>) -> bool,
                   locals: map<nat, Word>, trace: seq<Event>)
    requires Steady(w, r, bound, step, holds) && holds(locals, trace)
    ensures SteadyAt(w, r, bound, step, holds, locals, trace)
  {
  }

  lemma EndOfRange(r: Range, at: Word, bound: Word, step: Word)
    requires step > 0 && Distance(r, at, bound) <= 0
    ensures Steps(Distance(r, at, bound), step) == 0 && Final(r, at, bound, step) == at
  {
  }

  /** The counts as they are usually given: the span over the step, rounded up without the bound, and
      rounded down and one more with it. */
  lemma StepsAre(a: Word, b: Word, step: Word)
    requires a <= b && step > 0
    ensures Steps(b - a, step) == (b - a + step - 1) / step
    ensures Steps(b - a + 1, step) == (b - a) / step + 1
  {
    if a == b {
      Unique(step - 1, step, 0, step - 1);
      Unique(0, step, 0, 0);
      Unique(step, step, 1, 0);
    } else {
      var q, r := (b - a) / step, (b - a) % step;
      assert b - a == q * step + r;
      assert b - a + step == (q + 1) * step + r;
      Unique(b - a + step, step, q + 1, r);
    }
  }

  // ----- That the loop ends, and where it starts -----

  /** From every state with the property, this much fuel takes the body to its end. */
  ghost predicate BodyEnds(w: World, r: Range, holds: (map<nat, Word>, seq<Event>) -> bool, enough: nat) {
    forall locals: map<nat, Word>, trace: seq<Event>, fuel: nat :: holds(locals, trace) && fuel >= enough ==>
      !H.ExecAll(w, fuel, locals, trace, r.body).OutOfFuel?
  }

  /** If its body always ends, the loop ends: one turn after the other, as often as the step fits. */
  lemma {:induction false} RangeEnds(w: World, r: Range, bound: Word, step: Word,
                                     holds: (map<nat, Word>, seq<Event>) -> bool, enough: nat,
                                     fuel: nat, locals: map<nat, Word>, trace: seq<Event>)
    requires Steady(w, r, bound, step, holds) && holds(locals, trace) && step > 0 && BodyEnds(w, r, holds, enough)
    requires -TWO63 <= Final(r, ReadLocal(w, locals, r.counter), bound, step) < TWO63
    requires fuel > enough + Steps(Distance(r, ReadLocal(w, locals, r.counter), bound), step)
    ensures !H.ExecTurns(w, fuel, locals, trace, ForLoop(r)).OutOfFuel?
    decreases fuel
  {
    hide H.Eval, H.ExecAll, Steps, Final, Distance, H.Advance, Steady;
    var at := ReadLocal(w, locals, r.counter);
    SteadyHere(w, r, bound, step, holds, locals, trace);
    RangeTest(w, r, bound, locals, trace);
    if Distance(r, at, bound) > 0 {
      var b := H.ExecAll(w, fuel - 1, locals, trace, r.body);
      assert BodyReturns(w, r, holds, locals, b);
      AdvanceMoves(r, at, bound, step);
      SteadyHere(w, r, bound, step, holds, b.locals, b.trace);
      StepTaken(w, r, bound, step, holds, b.locals, b.trace);
      var next := H.Advance(at, step, r.reverse);
      RangeEnds(w, r, bound, step, holds, enough, fuel - 1, WithCounter(r, b.locals, next), b.trace);
    }
  }

  /** The value the turns of a range whose written start is `from` begin with. */
  function StartOf(r: Range, from: Word): Word {
    if r.declared then from else 0
  }

  /** An assignment `for x = from..to` drops its start. The state its turns begin in is the one written
      if and only if the counter is declared, or the start evaluates to 0 without a call. */
  lemma RangeStart(w: World, r: Range, locals: map<nat, Word>, trace: seq<Event>)
    ensures H.EvalInitializer(w, locals, trace, ForLoop(r).initializer) == H.Eval(w, locals, trace, r.from)
      <==> r.declared || H.Eval(w, locals, trace, r.from) == H.Val(0, trace)
  {
    hide H.Eval;
  }

  /** And it shows: over all bounds the number of turns is that of the range as written if and only if
      the counter is declared or the start is 0. */
  lemma StartShows(r: Range, from: Word)
    ensures (forall bound: Word :: Steps(Distance(r, StartOf(r, from), bound), 1) == Steps(Distance(r, from, bound), 1))
      <==> r.declared || from == 0
  {
    if !r.declared && from != 0 {
      var far: Word := if r.reverse then -TWO63 else TWO63 - 1;
      assert Steps(Distance(r, StartOf(r, from), far), 1) != Steps(Distance(r, from, far), 1);
    }
  }

  /** A whole range statement: where its counter ends. */
  lemma RangeLoopRuns(w: World, r: Range, from: Word, bound: Word, step: Word,
                      holds: (map<nat, Word>, seq<Event>) -> bool, fuel: nat, locals: map<nat, Word>,
                      trace: seq<Event>)
    requires H.Eval(w, locals, trace, r.from) == H.Val(from, trace)
    requires Steady(w, r, bound, step, holds) && holds(locals, trace) && step > 0
    requires -TWO63 <= Final(r, StartOf(r, from), bound, step) < TWO63
    ensures var e := H.Exec(w, fuel, locals, trace, ForLoop(r));
      !e.OutOfFuel? ==>
        && e.Done? && e.outcome.Normal?
        && ReadLocal(w, e.locals, r.counter) == Final(r, StartOf(r, from), bound, step)
    ensures forall enough: nat ::
      BodyEnds(w, r, holds, enough) && fuel > enough + Steps(Distance(r, StartOf(r, from), bound), step) ==>
        !H.Exec(w, fuel, locals, trace, ForLoop(r)).OutOfFuel?
  {
    hide H.Eval, H.ExecTurns, Steps, Final, Distance, Steady, BodyEnds;
    SteadyHere(w, r, bound, step, holds, locals, trace);
    var start := WithCounter(r, locals, StartOf(r, from));
    RangeRuns(w, r, bound, step, holds, fuel, start, trace);
    forall enough: nat
      | BodyEnds(w, r, holds, enough) && fuel > enough + Steps(Distance(r, StartOf(r, from), bound), step)
      ensures !H.Exec(w, fuel, locals, trace, ForLoop(r)).OutOfFuel?
    {
      RangeEnds(w, r, bound, step, holds, enough, fuel, start, trace);
    }
  }
}
