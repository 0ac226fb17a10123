/** Whole functions: parameters arrive, the body runs as its source does, and the compiled function
    halts exactly when the source terminates. */
module FunctionSim {
  import opened Words
  import opened Environment
  import opened Lir
  import opened Lowering
  import opened Runs
  import opened Steps
  import opened Fragments
  import opened StmtSim
  import opened Labels
  import H = Hir

  /** A function body always ends in a return. */
  function FunctionBody(body: seq<H.Stmt>): seq<H.Stmt> {
    if body == [] || !body[|body| - 1].Return? then body + [H.Return(None)] else body
  }

  /** A machine at the entry of a function: arguments in the registers and on the caller's stack, an
      accumulator and flags from whatever was before, nothing of its own yet. */
  ghost predicate IsEntry(m: Machine) {
    m.Valid() && m.status.Running? && m.pc == 0 && m.stack == [] && m.locals == map[] && m.trace == []
  }

  /** The value of parameter i: a register for the first six, the caller's stack for the others. */
  function ParameterValue(w: World, slots: seq<Word>, i: nat): Word
    requires |slots| == MAX_REGISTER_ARGUMENTS && i < MAX_REGISTER_ARGUMENTS + |w.incoming|
  {
    if i < MAX_REGISTER_ARGUMENTS then slots[i] else w.incoming[i - MAX_REGISTER_ARGUMENTS]
  }

  /** The locals once every parameter has its value. */
  function ParameterLocals(w: World, slots: seq<Word>, uids: seq<nat>): map<nat, Word>
    requires |slots| == MAX_REGISTER_ARGUMENTS && |uids| <= MAX_REGISTER_ARGUMENTS + |w.incoming|
  {
    if uids == [] then map[]
    else ParameterLocals(w, slots, uids[..|uids| - 1])[uids[|uids| - 1] := ParameterValue(w, slots, |uids| - 1)]
  }

  lemma StepParameter(prog: seq<Instr>, w: World, m: Machine, uid: nat, i: nat, total: nat)
    requires Fetches(prog, m, Store(Local(uid), Argument(i, total, i, false)))
    requires i < MAX_REGISTER_ARGUMENTS + |w.incoming|
    ensures Step(prog, w, m) == m.(pc := m.pc + 1, locals := m.locals[uid := ParameterValue(w, m.slots, i)])
  {
  }

  lemma {:induction false} SimParameters(prog: seq<Instr>, w: World, m: Machine, uids: seq<nat>, total: nat)
    returns (k: nat)
    requires Ready(prog, m, LowerParameters(uids, total)) && m.locals == map[]
    requires |uids| <= MAX_REGISTER_ARGUMENTS + |w.incoming|
    ensures Run(prog, w, m, k) == m.(pc := m.pc + |uids|, locals := ParameterLocals(w, m.slots, uids))
    ensures |LowerParameters(uids, total)| == |uids|
    decreases |uids|
  {
    hide Step, At, UniqueLabels, ParameterValue;
    k := 0;
    if uids != [] {
      var i := |uids| - 1;
      var last := Store(Local(uids[i]), Argument(i, total, i, false));
      AtSplit(prog, m.pc, LowerParameters(uids[..i], total), [last]);
      k := SimParameters(prog, w, m, uids[..i], total);
      var m1 := Run(prog, w, m, k);
      AtFirst(prog, m.pc + i, last);
      StepParameter(prog, w, m1, uids[i], i, total);
      RunSplit(prog, w, m, k, 1);
      OneStep(prog, w, m1, 0, 0);
      k := k + 1;
    }
  }

  lemma AtFirst(prog: seq<Instr>, p: nat, i: Instr)
    requires At(prog, p, [i])
    ensures p < |prog| && prog[p] == i
  {
    AtIndex(prog, p, [i]);
    assert prog[p + 0] == i;
  }

  lemma FunctionParts(name: nat, parameters: seq<nat>, body: seq<H.Stmt>)
    ensures var prog := LowerFunction(name, parameters, body);
      var code := LowerAll(body, 0, 0, 0).code;
      var store := LowerParameters(parameters, |parameters|);
      && At(prog, 0, [Instr(START_FUNC, Nothing, Function(name))]) && At(prog, 1, store) && At(prog, 1 + |store|, code)
      && At(prog, 1 + |store| + |code|, [Instr(END_FUNC, Nothing, Function(name))])
      && |prog| == 1 + |store| + |code| + 1
  {
    hide LowerAll, LowerParameters;
    var prog := LowerFunction(name, parameters, body);
    assert prog[0..0 + |prog|] == prog;
    assert At(prog, 0, prog);
    AtSplit4(prog, 0, [Instr(START_FUNC, Nothing, Function(name))], LowerParameters(parameters, |parameters|),
             LowerAll(body, 0, 0, 0).code, [Instr(END_FUNC, Nothing, Function(name))]);
  }

  lemma {:induction false} ParametersAreStraight(uids: seq<nat>, total: nat)
    ensures NoLabels(LowerParameters(uids, total))
    decreases |uids|
  {
    if uids != [] {
      ParametersAreStraight(uids[..|uids| - 1], total);
    }
  }

  /** In a lowered function every label is defined at most once and every jump target exactly once. */
  lemma FunctionLabels(name: nat, parameters: seq<nat>, body: seq<H.Stmt>)
    requires H.StmtsOk(body, false)
    ensures var prog := LowerFunction(name, parameters, body);
      UniqueLabels(prog) && Targets(prog) <= Defined(prog)
  {
    hide Closed, LowerAll, LowerParameters, H.StmtsOk;
    var b := LowerAll(body, 0, 0, 0);
    AllLabels(body, false, 0, 0, 0);
    ParametersAreStraight(parameters, |parameters|);
    var start := [Instr(START_FUNC, Nothing, Function(name))];
    var store := LowerParameters(parameters, |parameters|);
    StraightIsClosed(start, 0, 0, {});
    WithStraight(start, store, 0, 0, {});
    Adjacent(start + store, b.code, 0, 0, b.next, {});
    WithStraight(start + store + b.code, [Instr(END_FUNC, Nothing, Function(name))], 0, b.next, {});
    ClosedMeans(LowerFunction(name, parameters, body), 0, b.next);
  }

  lemma ClosedMeans(code: seq<Instr>, n: nat, next: nat)
    requires Closed(code, n, next, {})
    ensures UniqueLabels(code) && Targets(code) <= Defined(code)
  {
    hide Defined, Targets, UniqueLabels, WellFormed;
  }

  // ----- Outcomes of function bodies -----

  lemma {:induction false} NoEscape(w: World, fuel: nat, locals: map<nat, Word>, trace: seq<Event>, s: H.Stmt)
    requires H.StmtOk(s, false)
    ensures var r := H.Exec(w, fuel, locals, trace, s);
      r.Done? ==> r.outcome.Normal? || r.outcome.Returned?
    decreases fuel, s, 2
  {
    hide H.Eval, H.ExprOk, H.Advance, H.EvalInitializer;
    match s
    case Block(body) => NoEscapeAll(w, fuel, locals, trace, body);
    case If(condition, body, otherwise) =>
      var c := H.Eval(w, locals, trace, condition);
      NoEscapeAll(w, fuel, locals, c.trace, body);
      NoEscapeAll(w, fuel, locals, c.trace, otherwise);
    case While(_, _, _) => NoEscapeWhile(w, fuel, locals, trace, s);
    case For(counter, initializer, _, _, _, _) =>
      var v := H.EvalInitializer(w, locals, trace, initializer);
      if v.Val? {
        NoEscapeTurns(w, fuel, locals[counter := v.v], v.trace, s);
      }
    case _ =>
  }

  lemma {:induction false} NoEscapeAll(w: World, fuel: nat, locals: map<nat, Word>, trace: seq<Event>, ss: seq<H.Stmt>)
    requires H.StmtsOk(ss, false)
    ensures var r := H.ExecAll(w, fuel, locals, trace, ss);
      r.Done? ==> r.outcome.Normal? || r.outcome.Returned?
    decreases fuel, ss, 3
  {
    hide H.Exec, H.StmtOk;
    if ss != [] {
      NoEscape(w, fuel, locals, trace, ss[0]);
      var r := H.Exec(w, fuel, locals, trace, ss[0]);
      if r.Done? && r.outcome.Normal? {
        NoEscapeAll(w, fuel, r.locals, r.trace, ss[1..]);
      }
    }
  }

  lemma {:induction false} NoEscapeWhile(w: World, fuel: nat, locals: map<nat, Word>, trace: seq<Event>, s: H.Stmt)
    requires s.While?
    ensures var r := H.Exec(w, fuel, locals, trace, s);
      r.Done? ==> r.outcome.Normal? || r.outcome.Returned?
    decreases fuel, s, 1
  {
    hide H.Eval, H.ExecAll;
    if fuel > 0 {
      if s.doFirst {
        var b := H.ExecAll(w, fuel - 1, locals, trace, s.body);
        if H.EndsTurn(b) {
          NoEscapeWhile(w, fuel - 1, b.locals, H.Eval(w, b.locals, b.trace, s.condition).trace, s);
        }
      } else {
        var b := H.ExecAll(w, fuel - 1, locals, H.Eval(w, locals, trace, s.condition).trace, s.body);
        if H.EndsTurn(b) {
          NoEscapeWhile(w, fuel - 1, b.locals, b.trace, s);
        }
      }
    }
  }

  lemma {:induction false} NoEscapeTurns(w: World, fuel: nat, locals: map<nat, Word>, trace: seq<Event>, s: H.Stmt)
    requires s.For?
    ensures var r := H.ExecTurns(w, fuel, locals, trace, s);
      r.Done? ==> r.outcome.Normal? || r.outcome.Returned?
    decreases fuel, s, 1
  {
    hide H.Eval, H.ExecAll, H.Advance;
    if fuel > 0 {
      var b := H.ExecAll(w, fuel - 1, locals, H.Eval(w, locals, trace, s.condition).trace, s.body);
      if H.EndsTurn(b) {
        var step := H.Eval(w, b.locals, b.trace, s.increment);
        if step.Val? {
          NoEscapeTurns(w, fuel - 1,
                        b.locals[s.counter := H.Advance(ReadLocal(w, b.locals, s.counter), step.v, s.decrement)],
                            step.trace, s);
        }
      }
    }
  }

  /** A body that ends in a return never falls off its end. */
  lemma {:induction false} EndsInReturn(w: World, fuel: nat, locals: map<nat, Word>, trace: seq<Event>, ss: seq<H.Stmt>)
    requires ss != [] && ss[|ss| - 1].Return?
    ensures var r := H.ExecAll(w, fuel, locals, trace, ss); !(r.Done? && r.outcome.Normal?)
    decreases |ss|
  {
    hide H.Eval;
    if |ss| == 1 {
      assert ss[1..] == [];
    } else {
      var r := H.Exec(w, fuel, locals, trace, ss[0]);
      hide H.Exec;
      if r.Done? && r.outcome.Normal? {
        EndsInReturn(w, fuel, r.locals, r.trace, ss[1..]);
      }
    }
  }

  // ----- The theorem -----

  /** The source run of a function: its body, started with its parameters. */
  ghost function SourceRun(w: World, fuel: nat, slots: seq<Word>, parameters: seq<nat>, body: seq<H.Stmt>): H.Result
    requires |slots| == MAX_REGISTER_ARGUMENTS && |parameters| <= MAX_REGISTER_ARGUMENTS + |w.incoming|
  {
    H.ExecAll(w, fuel, ParameterLocals(w, slots, parameters), [], FunctionBody(body))
  }

  /** The machine has stopped the way the source run did. */
  ghost predicate SameEnd(m: Machine, r: H.Result) {
    match r
    case Done(outcome, locals, trace) =>
      outcome.Returned? && m.status == Returned(outcome.value) && m.locals == locals && m.trace == trace
    case Faulted(locals, trace) => m.status.Trapped? && m.locals == locals && m.trace == trace
    case OutOfFuel => false
  }

  lemma BodyOk(body: seq<H.Stmt>)
    requires H.StmtsOk(body, false)
    ensures var b := FunctionBody(body); H.StmtsOk(b, false) && b != [] && b[|b| - 1].Return?
  {
    var b := FunctionBody(body);
    forall i | 0 <= i < |b|
      ensures H.StmtOk(b[i], false)
    {
      if i < |body| {
        assert b[i] == body[i];
      }
    }
  }

  /** After k steps the compiled function has ended like the source run, or is still running and k is
      at least the fuel the source used up. */
  lemma FunctionRuns(name: nat, parameters: seq<nat>, body: seq<H.Stmt>, w: World, start: Machine, fuel: nat)
    returns (k: nat)
    requires H.StmtsOk(body, false)
    requires IsEntry(start) && |parameters| <= MAX_REGISTER_ARGUMENTS + |w.incoming|
    ensures var m := Run(LowerFunction(name, parameters, FunctionBody(body)), w, start, k);
      var r := SourceRun(w, fuel, start.slots, parameters, body);
      if r.OutOfFuel? then m.status.Running? && k >= fuel else SameEnd(m, r)
  {
    hide Step, Run, At, Inside, UniqueLabels, H.StmtsOk, H.ExecAll, LowerAll, LowerParameters, LowerFunction,
        ParameterLocals,
      FunctionBody;
    BodyOk(body);
    var b := FunctionBody(body);
    var prog := LowerFunction(name, parameters, b);
    FunctionParts(name, parameters, b);
    FunctionLabels(name, parameters, b);
    var j := RunMarker(prog, w, start, Instr(START_FUNC, Nothing, Function(name)), 0, 0);
    var m1 := Run(prog, w, start, j);
    var i := SimParameters(prog, w, m1, parameters, |parameters|);
    var m2 := Run(prog, w, m1, i);
    k := SimBody(prog, w, fuel, m2, b);
    EndsInReturn(w, fuel, m2.locals, m2.trace, b);
    NoEscapeAll(w, fuel, m2.locals, m2.trace, b);
    RunSplit(prog, w, m1, i, k);
    RunSplit(prog, w, start, j, i + k);
    k := j + (i + k);
  }

  lemma SimBody(prog: seq<Instr>, w: World, fuel: nat, m: Machine, ss: seq<H.Stmt>)
    returns (k: nat)
    requires H.StmtsOk(ss, false)
    requires Ready(prog, m, LowerAll(ss, 0, 0, 0).code)
    ensures Ended(fuel, k, m.stack, Run(prog, w, m, k), m.pc + |LowerAll(ss, 0, 0, 0).code|, Exits(0, 0, 0, 0, false),
                  H.ExecAll(w, fuel, m.locals, m.trace, ss))
  {
    hide Step, Run, At, Inside, UniqueLabels, H.StmtsOk, H.ExecAll, LowerAll, BlockSlots, Ended;
    var most := BlockSlots(ss);
    k := SimAll(prog, w, fuel, m, ss, 0, Exits(0, 0, 0, 0, false), most, |m.stack|, |m.stack| + most);
  }

  ghost predicate Terminates(w: World, slots: seq<Word>, parameters: seq<nat>, body: seq<H.Stmt>)
    requires |slots| == MAX_REGISTER_ARGUMENTS && |parameters| <= MAX_REGISTER_ARGUMENTS + |w.incoming|
  {
    exists fuel: nat :: !SourceRun(w, fuel, slots, parameters, body).OutOfFuel?
  }

  /** The compiled function halts exactly when its source terminates, and then only in the way the
      source ends: same return value or fault, same locals, same calls with the same arguments. */
  lemma FunctionCorrect(name: nat, parameters: seq<nat>, body: seq<H.Stmt>, w: World, start: Machine)
    requires H.StmtsOk(body, false)
    requires IsEntry(start) && |parameters| <= MAX_REGISTER_ARGUMENTS + |w.incoming|
    ensures var prog := LowerFunction(name, parameters, FunctionBody(body));
      && (Halts(prog, w, start) <==> Terminates(w, start.slots, parameters, body))
      && (forall k: nat, fuel: nat ::
            var m := Run(prog, w, start, k);
            var r := SourceRun(w, fuel, start.slots, parameters, body);
            !m.status.Running? && !r.OutOfFuel? ==> SameEnd(m, r))
  {
    hide Step, Run, H.StmtsOk, LowerFunction, FunctionBody, SourceRun, SameEnd;
    var prog := LowerFunction(name, parameters, FunctionBody(body));
    forall k: nat | !Run(prog, w, start, k).status.Running?
      ensures !SourceRun(w, k, start.slots, parameters, body).OutOfFuel?
    {
      var j := FunctionRuns(name, parameters, body, w, start, k);
      if SourceRun(w, k, start.slots, parameters, body).OutOfFuel? {
        RunningBefore(prog, w, start, j, k);
      }
    }
    forall fuel: nat | !SourceRun(w, fuel, start.slots, parameters, body).OutOfFuel?
      ensures Halts(prog, w, start)
      ensures forall k: nat :: !Run(prog, w, start, k).status.Running? ==>
        SameEnd(Run(prog, w, start, k), SourceRun(w, fuel, start.slots, parameters, body))
    {
      EndsLike(name, parameters, body, w, start, fuel);
    }
  }

  lemma EndsLike(name: nat, parameters: seq<nat>, body: seq<H.Stmt>, w: World, start: Machine, fuel: nat)
    requires H.StmtsOk(body, false)
    requires IsEntry(start) && |parameters| <= MAX_REGISTER_ARGUMENTS + |w.incoming|
    requires !SourceRun(w, fuel, start.slots, parameters, body).OutOfFuel?
    ensures var prog := LowerFunction(name, parameters, FunctionBody(body));
      && Halts(prog, w, start)
      && forall k: nat :: !Run(prog, w, start, k).status.Running? ==>
           SameEnd(Run(prog, w, start, k), SourceRun(w, fuel, start.slots, parameters, body))
  {
    hide Step, Run, H.StmtsOk, LowerFunction, FunctionBody, SourceRun;
    var prog := LowerFunction(name, parameters, FunctionBody(body));
    var j := FunctionRuns(name, parameters, body, w, start, fuel);
    assert !Run(prog, w, start, j).status.Running?;
    forall k: nat | !Run(prog, w, start, k).status.Running?
      ensures SameEnd(Run(prog, w, start, k), SourceRun(w, fuel, start.slots, parameters, body))
    {
      HaltedAgree(prog, w, start, j, k);
    }
  }
}
