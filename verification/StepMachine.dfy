/**
 * The plan compiler (engine/build_step.go) and the step combinators (exec/),
 * on values: a compiled factory, the state its step objects are in after
 * `Run`, and what `Succeeded` answers in that state. `Succeeded` answers None
 * where the code would dereference a nil step.
 */
module StepMachine {
  import opened Options
  import opened Plans

  datatype Factory =
    | IdentityF
    | ActionsF(id: PlanId, attempts: Attempts)
    | AggregateF(id: PlanId, factories: seq<Factory>)
    | RetryF(factories: seq<Factory>)
    | TimeoutF(id: PlanId, first: Factory, duration: Duration)
    | TryF(first: Factory)
    | OnAbortF(first: Factory, second: Factory)
    | OnSuccessF(first: Factory, second: Factory)
    | OnFailureF(first: Factory, second: Factory)
    | EnsureF(first: Factory, second: Factory)

  function Compile(p: Plan, attempts: Attempts): Factory
    decreases p, 1
  {
    match p
    case Action(id) => ActionsF(id, attempts)
    case Empty => IdentityF
    case Aggregate(id, steps) => AggregateF(id, CompileAll(steps, attempts))
    case Do(steps) => CompileDo(steps, attempts)
    case Retry(steps) => RetryF(CompileRetry(steps, 1, attempts))
    case Timeout(id, step, duration) => TimeoutF(id, Compile(step, attempts), duration)
    case Try(step) => TryF(Compile(step, attempts))
    case OnAbort(step, next) => OnAbortF(Compile(step, attempts), Compile(next, attempts))
    case OnSuccess(step, next) => OnSuccessF(Compile(step, attempts), Compile(next, attempts))
    case OnFailure(step, next) => OnFailureF(Compile(step, attempts), Compile(next, attempts))
    case Ensure(step, next) => EnsureF(Compile(step, attempts), Compile(next, attempts))
  }

  function CompileAll(steps: seq<Plan>, attempts: Attempts): (fs: seq<Factory>)
    ensures |fs| == |steps|
    decreases steps, 0
  {
    if steps == [] then [] else [Compile(steps[0], attempts)] + CompileAll(steps[1..], attempts)
  }

  /** A `do` nests to the right and ends in the identity step. */
  function CompileDo(steps: seq<Plan>, attempts: Attempts): Factory
    decreases steps, 0
  {
    if steps == [] then IdentityF
    else OnSuccessF(Compile(steps[0], attempts), CompileDo(steps[1..], attempts))
  }

  function CompileRetry(steps: seq<Plan>, index: nat, attempts: Attempts): (fs: seq<Factory>)
    ensures |fs| == |steps|
    decreases steps, 0
  {
    if steps == [] then []
    else [Compile(steps[0], attempts + [index])] + CompileRetry(steps[1..], index + 1, attempts)
  }

  /** The fields of the step objects; None is a nil step. */
  datatype StepState =
    | IdentityS
    | ActionsS(succeeded: bool)
    | AggregateS(members: seq<StepState>)
    | RetryS(members: seq<StepState>, last: Option<StepState>)
    | TimeoutS(step: StepState, timedOut: bool)
    | TryS(step: StepState)
    | HookS(step: StepState)                                  // on_abort, on_failure
    | PairS(step: StepState, second: Option<StepState>)       // on_success, ensure

  /** The state right after Using. */
  function Initial(f: Factory): StepState
    decreases f, 1
  {
    match f
    case IdentityF => IdentityS
    case ActionsF(_, _) => ActionsS(false)
    case AggregateF(_, fs) => AggregateS(InitialAll(fs))
    case RetryF(fs) => RetryS(InitialAll(fs), None)
    case TimeoutF(_, first, _) => TimeoutS(Initial(first), false)
    case TryF(first) => TryS(Initial(first))
    case OnAbortF(first, _) => HookS(Initial(first))
    case OnFailureF(first, _) => HookS(Initial(first))
    case OnSuccessF(first, _) => PairS(Initial(first), None)
    case EnsureF(first, _) => PairS(Initial(first), None)
  }

  function InitialAll(fs: seq<Factory>): (ss: seq<StepState>)
    ensures |ss| == |fs|
    decreases fs, 0
  {
    if fs == [] then [] else [Initial(fs[0])] + InitialAll(fs[1..])
  }

  function Succeeded(s: StepState): Option<bool>
  {
    match s
    case IdentityS => Some(true)
    case ActionsS(succeeded) => Some(succeeded)
    case AggregateS(members) => AllSucceeded(members)
    case RetryS(_, last) => if last.None? then None else Succeeded(last.value)
    case TimeoutS(step, timedOut) => if timedOut then Some(false) else Succeeded(step)
    case TryS(_) => Some(true)
    case HookS(step) => Succeeded(step)
    case PairS(step, second) =>
      var first := Succeeded(step);
      if first != Some(true) then first
      else if second.None? then None else Succeeded(second.value)
  }

  function AllSucceeded(members: seq<StepState>): Option<bool>
  {
    if members == [] then Some(true)
    else
      var head, rest := Succeeded(members[0]), AllSucceeded(members[1..]);
      if head.None? || rest.None? then None else Some(head.value && rest.value)
  }

  /** A finished Run, or a panic inside it. */
  datatype Run = Panicked | Finished(err: Option<Error>, state: StepState, trace: seq<Event>)

  function RunStep(f: Factory, o: Oracle): Run
    decreases f, 1
  {
    match f
    case IdentityF => Finished(None, IdentityS, [])
    case ActionsF(id, attempts) =>
      var (e, ok) := LeafResult(o.actions(id));
      Finished(e, ActionsS(ok), [Ran(id, attempts)])
    case AggregateF(id, fs) =>
      var rs := RunAll(fs, o);
      if exists i | 0 <= i < |rs| :: rs[i].Panicked? then Panicked
      else
        var trace := [Par(RunTraces(rs))];
        var err :=
          if o.signalled(id) then Some(Interrupted)
          else if RunErrors(rs) == [] then None else Some(Sources(RunErrors(rs)));
        Finished(err, AggregateS(RunStates(rs)), trace)
    case RetryF(fs) => RunRetry([], fs, None, None, o)
    case TimeoutF(id, first, duration) =>
      if duration.Unparsed? then Finished(Some(Other(duration.text)), Initial(f), [])
      else
        var r := RunStep(first, o);
        if r.Panicked? then Panicked
        else if o.fires(id) then Finished(None, TimeoutS(r.state, true), r.trace)
        else Finished(r.err, TimeoutS(r.state, false), r.trace)
    case TryF(first) =>
      var r := RunStep(first, o);
      if r.Panicked? then Panicked
      else Finished(if r.err == Some(Interrupted) then r.err else None, TryS(r.state), r.trace)
    case OnAbortF(first, second) =>
      var r := RunStep(first, o);
      if r.Panicked? then Panicked
      else if r.err.None? then Finished(None, HookS(r.state), r.trace)
      else if !Mentions(r.err.value) then Finished(Combined(r.err, None), HookS(r.state), r.trace)
      else
        var n := RunStep(second, o);
        if n.Panicked? then Panicked
        else Finished(Combined(r.err, n.err), HookS(r.state), r.trace + n.trace)
    case OnFailureF(first, second) =>
      var r := RunStep(first, o);
      if r.Panicked? then Panicked
      else if r.err.Some? then Finished(r.err, HookS(r.state), r.trace)
      else if Succeeded(r.state).None? then Panicked
      else if Succeeded(r.state).value then Finished(None, HookS(r.state), r.trace)
      else
        var n := RunStep(second, o);
        if n.Panicked? then Panicked
        else Finished(n.err, HookS(r.state), r.trace + n.trace)
    case OnSuccessF(first, second) =>
      var r := RunStep(first, o);
      if r.Panicked? then Panicked
      else if r.err.Some? then Finished(r.err, PairS(r.state, None), r.trace)
      else if Succeeded(r.state).None? then Panicked
      else if !Succeeded(r.state).value then Finished(None, PairS(r.state, None), r.trace)
      else
        var n := RunStep(second, o);
        if n.Panicked? then Panicked
        else Finished(n.err, PairS(r.state, Some(n.state)), r.trace + n.trace)
    case EnsureF(first, second) =>
      var r := RunStep(first, o);
      if r.Panicked? then Panicked
      else
        var n := RunStep(second, o);
        if n.Panicked? then Panicked
        else Finished(Combined(r.err, n.err), PairS(r.state, Some(n.state)), r.trace + n.trace)
  }

  function RunAll(fs: seq<Factory>, o: Oracle): (rs: seq<Run>)
    ensures |rs| == |fs|
    decreases fs, 0
  {
    if fs == [] then [] else [RunStep(fs[0], o)] + RunAll(fs[1..], o)
  }

  /** The retry loop: `done` holds the attempts already made, `err` and `last` what they left behind. */
  function RunRetry(done: seq<StepState>, fs: seq<Factory>, err: Option<Error>, last: Option<StepState>, o: Oracle): Run
    decreases fs, 0
  {
    if fs == [] then Finished(err, RetryS(done, last), [])
    else
      var r := RunStep(fs[0], o);
      if r.Panicked? then Panicked
      else
        var here := RetryS(done + [r.state] + InitialAll(fs[1..]), Some(r.state));
        if r.err == Some(Interrupted) then Finished(r.err, here, r.trace)
        else if r.err.None? && Succeeded(r.state).None? then Panicked
        else if r.err.None? && Succeeded(r.state).value then Finished(None, here, r.trace)
        else
          var n := RunRetry(done + [r.state], fs[1..], r.err, Some(r.state), o);
          if n.Panicked? then Panicked else n.(trace := r.trace + n.trace)
  }

  function RunErrors(rs: seq<Run>): seq<Error>
  {
    if rs == [] then []
    else (if rs[0].Finished? && rs[0].err.Some? then [rs[0].err.value] else []) + RunErrors(rs[1..])
  }

  function RunStates(rs: seq<Run>): (ss: seq<StepState>)
    requires forall i | 0 <= i < |rs| :: rs[i].Finished?
    ensures |ss| == |rs|
  {
    if rs == [] then [] else [rs[0].state] + RunStates(rs[1..])
  }

  function RunTraces(rs: seq<Run>): (ts: seq<seq<Event>>)
    requires forall i | 0 <= i < |rs| :: rs[i].Finished?
    ensures |ts| == |rs|
  {
    if rs == [] then [] else [rs[0].trace] + RunTraces(rs[1..])
  }

  // ---- Compiler correctness -------------------------------------------------

  /** What a compiled run owes to the plan's meaning. */
  predicate Agrees(run: Run, expected: Outcome, quiet: bool)
  {
    && run.Finished?
    && run.err == expected.err
    && run.trace == expected.trace
    && (quiet || run.err.None? ==> Succeeded(run.state) == Some(expected.ok))
  }

  /** Compiler correctness. For every well-formed plan and every oracle the
      compiled steps finish without touching a step that was not run, with the
      error and the leaf trace of the plan's meaning. Whenever Run returned nil,
      Succeeded is defined and agrees with it; when no signal came from outside,
      that holds after every Run. */
  lemma {:induction false} CompilerCorrect(p: Plan, attempts: Attempts, o: Oracle)
    requires WellFormed(p)
    ensures Agrees(RunStep(Compile(p, attempts), o), Eval(p, attempts, o), Quiet(p, o))
    decreases p, 1
  {
    match p
    case Action(id) =>
    case Empty =>
    case Do(steps) => DoCorrect(steps, attempts, o);
    case Retry(steps) => RetryCorrect([], steps, 1, None, None, attempts, o);
    case Aggregate(id, steps) => AggregateCorrect(id, steps, attempts, o);
    case Timeout(id, step, _) => CompilerCorrect(step, attempts, o);
    case Try(step) =>
      CompilerCorrect(step, attempts, o);
      if Quiet(step, o) { QuietNeverInterrupted(step, attempts, o); }
    case OnAbort(step, next) =>
      CompilerCorrect(step, attempts, o);
      CompilerCorrect(next, attempts, o);
      ErrorIsNoSuccess(step, attempts, o);
      OnAbortCorrect(Compile(step, attempts), Compile(next, attempts), Eval(step, attempts, o), Eval(next, attempts, o),
                     Quiet(step, o), Quiet(next, o), o);
    case OnSuccess(step, next) =>
      CompilerCorrect(step, attempts, o);
      CompilerCorrect(next, attempts, o);
      ErrorIsNoSuccess(step, attempts, o);
      OnSuccessCorrect(Compile(step, attempts), Compile(next, attempts),
                       Eval(step, attempts, o), Eval(next, attempts, o),
                       Quiet(step, o), Quiet(next, o), o);
    case OnFailure(step, next) =>
      CompilerCorrect(step, attempts, o);
      CompilerCorrect(next, attempts, o);
      OnFailureCorrect(Compile(step, attempts), Compile(next, attempts),
                       Eval(step, attempts, o), Eval(next, attempts, o),
                       Quiet(step, o), Quiet(next, o), o);
    case Ensure(step, next) =>
      CompilerCorrect(step, attempts, o);
      CompilerCorrect(next, attempts, o);
      ErrorIsNoSuccess(step, attempts, o);
      ErrorIsNoSuccess(next, attempts, o);
      EnsureCorrect(Compile(step, attempts), Compile(next, attempts), Eval(step, attempts, o), Eval(next, attempts, o),
                    Quiet(step, o), Quiet(next, o), o);
  }

  lemma OnSuccessCorrect(f: Factory, g: Factory, e: Outcome, n: Outcome, qf: bool, qg: bool, o: Oracle)
    requires Agrees(RunStep(f, o), e, qf) && Agrees(RunStep(g, o), n, qg)
    requires e.err.Some? ==> !e.ok
    ensures Agrees(RunStep(OnSuccessF(f, g), o), Then(e, n), qf && qg)
  {
  }

  lemma OnFailureCorrect(f: Factory, g: Factory, e: Outcome, n: Outcome, qf: bool, qg: bool, o: Oracle)
    requires Agrees(RunStep(f, o), e, qf) && Agrees(RunStep(g, o), n, qg)
    ensures Agrees(RunStep(OnFailureF(f, g), o), IfFailed(e, n), qf && qg)
  {
  }

  lemma OnAbortCorrect(f: Factory, g: Factory, e: Outcome, n: Outcome, qf: bool, qg: bool, o: Oracle)
    requires Agrees(RunStep(f, o), e, qf) && Agrees(RunStep(g, o), n, qg)
    requires e.err.Some? ==> !e.ok
    ensures Agrees(RunStep(OnAbortF(f, g), o), IfAborted(e, n), qf && qg)
  {
  }

  lemma EnsureCorrect(f: Factory, g: Factory, e: Outcome, n: Outcome, qf: bool, qg: bool, o: Oracle)
    requires Agrees(RunStep(f, o), e, qf) && Agrees(RunStep(g, o), n, qg)
    requires (e.err.Some? ==> !e.ok) && (n.err.Some? ==> !n.ok)
    ensures Agrees(RunStep(EnsureF(f, g), o), Both(e, n), qf && qg)
  {
  }

  lemma {:induction false} DoCorrect(steps: seq<Plan>, attempts: Attempts, o: Oracle)
    requires forall i | 0 <= i < |steps| :: WellFormed(steps[i])
    ensures Agrees(RunStep(CompileDo(steps, attempts), o), EvalDo(steps, attempts, o),
                   forall i | 0 <= i < |steps| :: Quiet(steps[i], o))
    decreases steps, 0
  {
    hide Eval, Compile;
    if steps != [] {
      CompilerCorrect(steps[0], attempts, o);
      ErrorIsNoSuccess(steps[0], attempts, o);
      DoCorrect(steps[1..], attempts, o);
      OnSuccessCorrect(Compile(steps[0], attempts), CompileDo(steps[1..], attempts),
                       Eval(steps[0], attempts, o), EvalDo(steps[1..], attempts, o),
                       Quiet(steps[0], o), forall i | 0 <= i < |steps[1..]| :: Quiet(steps[1..][i], o), o);
    }
  }

  lemma {:induction false} RetryCorrect(done: seq<StepState>, steps: seq<Plan>, index: nat,
                                        err: Option<Error>, last: Option<StepState>, attempts: Attempts, o: Oracle)
    requires steps != []
    requires forall i | 0 <= i < |steps| :: WellFormed(steps[i])
    ensures Agrees(RunRetry(done, CompileRetry(steps, index, attempts), err, last, o),
                   EvalRetry(steps, index, attempts, o),
                   forall i | 0 <= i < |steps| :: Quiet(steps[i], o))
    decreases steps, 0
  {
    hide Eval, Compile, RunStep, WellFormed, Quiet, Initial;
    var fs := CompileRetry(steps, index, attempts);
    var r := RunStep(fs[0], o);
    CompilerCorrect(steps[0], attempts + [index], o);
    ErrorIsNoSuccess(steps[0], attempts + [index], o);
    assert fs[1..] == CompileRetry(steps[1..], index + 1, attempts);
    if |steps| > 1 {
      RetryCorrect(done + [r.state], steps[1..], index + 1, r.err, Some(r.state), attempts, o);
    } else {
      assert r.trace + [] == r.trace;
    }
  }

  lemma {:induction false} AggregateCorrect(id: PlanId, steps: seq<Plan>, attempts: Attempts, o: Oracle)
    requires forall i | 0 <= i < |steps| :: WellFormed(steps[i])
    ensures Agrees(RunStep(AggregateF(id, CompileAll(steps, attempts)), o), Eval(Aggregate(id, steps), attempts, o),
                   Quiet(Aggregate(id, steps), o))
    decreases steps, 1
  {
    var rs, es := RunAll(CompileAll(steps, attempts), o), EvalAll(steps, attempts, o);
    MembersAgree(steps, attempts, o);
    ErrorsMeaning(es);
    forall i | 0 <= i < |steps|
      ensures es[i].err.Some? ==> !es[i].ok
    {
      EvalAllAt(steps, attempts, o, i);
      ErrorIsNoSuccess(steps[i], attempts, o);
    }
    AgreeTogether(rs, es, forall i | 0 <= i < |steps| :: Quiet(steps[i], o));
  }

  lemma {:induction false} MembersAgree(steps: seq<Plan>, attempts: Attempts, o: Oracle)
    requires forall i | 0 <= i < |steps| :: WellFormed(steps[i])
    ensures
      var rs, es := RunAll(CompileAll(steps, attempts), o), EvalAll(steps, attempts, o);
      forall i | 0 <= i < |steps| :: Agrees(rs[i], es[i], Quiet(steps[i], o))
    decreases steps, 0
  {
    hide Eval, Compile, RunStep, Agrees;
    if steps != [] {
      CompilerCorrect(steps[0], attempts, o);
      MembersAgree(steps[1..], attempts, o);
    }
  }

  lemma {:induction false} AgreeTogether(rs: seq<Run>, es: seq<Outcome>, quiet: bool)
    requires |rs| == |es| && forall i | 0 <= i < |rs| :: rs[i].Finished? && Agrees(rs[i], es[i], quiet)
    ensures RunTraces(rs) == Traces(es) && RunErrors(rs) == Errors(es)
    ensures quiet || Errors(es) == [] ==> AllSucceeded(RunStates(rs)) == Some(AllOk(es))
  {
    if rs != [] {
      AgreeTogether(rs[1..], es[1..], quiet);
      assert forall i | 1 <= i < |es| :: es[i] == es[1..][i - 1];
    }
  }
}
