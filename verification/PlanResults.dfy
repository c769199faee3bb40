/**
 * How a plan can end. From the plan alone `Possible` computes a set of results: the
 * kind of error, and what `Succeeded` answers. For plans whose ids are distinct, as the
 * plan factory makes them, these are exactly the results of compiled runs over all
 * oracles, so that safety under any signal can be read off the plan.
 */
module PlanResults {
  import opened Options
  import opened Plans
  import opened StepMachine

  /** The bare interrupt, another error that reads "interrupted", or one that does not. */
  datatype Kind = Nil | Bare | Reads | Plain

  datatype Result = Panic | Result(kind: Kind, answer: Option<bool>)

  function KindOf(e: Option<Error>): Kind
  {
    match e
    case None => Nil
    case Some(Interrupted) => Bare
    case Some(err) => if Mentions(err) then Reads else Plain
  }

  function ResultOf(r: Run): Result
  {
    match r
    case Panicked => Panic
    case Finished(err, state, _) => Result(KindOf(err), Succeeded(state))
  }

  // ---- Combinators on results --------------------------------------------------------

  /** Two errors in one. */
  function Joined(k: Kind, l: Kind): Kind
  {
    if k.Nil? && l.Nil? then Nil
    else if k.Bare? || k.Reads? || l.Bare? || l.Reads? then Reads else Plain
  }

  function AfterSuccess(r: Result, n: Result): Result
  {
    if r.Panic? then Panic
    else if !r.kind.Nil? then r.(answer := if r.answer == Some(true) then None else r.answer)
    else if r.answer.None? then Panic
    else if r.answer.value then n else r
  }

  function AfterFailure(r: Result, n: Result): Result
  {
    if r.Panic? then Panic
    else if !r.kind.Nil? then r
    else if r.answer.None? then Panic
    else if r.answer.value then r
    else if n.Panic? then Panic else n.(answer := Some(false))
  }

  function AfterAbort(r: Result, n: Result): Result
  {
    if r.Panic? || r.kind.Nil? || r.kind.Plain? then r
    else if n.Panic? then Panic else r.(kind := Reads)
  }

  function Always(r: Result, n: Result): Result
  {
    if r.Panic? || n.Panic? then Panic
    else Result(Joined(r.kind, n.kind), if r.answer == Some(true) then n.answer else r.answer)
  }

  function Beside(r: Result, n: Result): Result
  {
    if r.Panic? || n.Panic? then Panic
    else
      Result(Joined(r.kind, n.kind),
             if r.answer.None? || n.answer.None? then None else Some(r.answer.value && n.answer.value))
  }

  function Signalled(signalled: bool, r: Result): Result
  {
    if r.Result? && signalled then r.(kind := Bare) else r
  }

  function TimedOut(fired: bool, r: Result): Result
  {
    if r.Result? && fired then Result(Nil, Some(false)) else r
  }

  function Tried(r: Result): Result
  {
    if r.Panic? then Panic else Result(if r.kind.Bare? then Bare else Nil, Some(true))
  }

  /** An attempt that is not the last: does it end the retry? */
  function NextAttempt(r: Result, n: Result): Result
  {
    if r.Panic? || r.kind.Bare? then r
    else if r.kind.Nil? && r.answer.None? then Panic
    else if r.kind.Nil? && r.answer.value then r else n
  }

  /** The last one: the result is asked all the same. */
  function LastAttempt(r: Result): Result
  {
    NextAttempt(r, r)
  }

  const DONE := Result(Nil, Some(true))

  /** What a step that was never run answers. */
  function Unrun(p: Plan): Option<bool>
  {
    Succeeded(Initial(Compile(p, [])))
  }

  // ---- Under one oracle ----------------------------------------------------------------

  function ResultIn(p: Plan, o: Oracle): Result
    decreases p, 1
  {
    match p
    case Action(id) => Result(KindOf(LeafResult(o.actions(id)).0), Some(LeafResult(o.actions(id)).1))
    case Empty => DONE
    case Aggregate(id, steps) => Signalled(o.signalled(id), ResultOfAll(steps, o))
    case Do(steps) => ResultOfDo(steps, o)
    case Retry(steps) => ResultOfRetry(steps, o)
    case Timeout(id, step, duration) =>
      if duration.Unparsed? then Result(KindOf(Some(Other(duration.text))), Unrun(step))
      else TimedOut(o.fires(id), ResultIn(step, o))
    case Try(step) => Tried(ResultIn(step, o))
    case OnAbort(step, next) => AfterAbort(ResultIn(step, o), ResultIn(next, o))
    case OnSuccess(step, next) => AfterSuccess(ResultIn(step, o), ResultIn(next, o))
    case OnFailure(step, next) => AfterFailure(ResultIn(step, o), ResultIn(next, o))
    case Ensure(step, next) => Always(ResultIn(step, o), ResultIn(next, o))
  }

  function ResultOfAll(steps: seq<Plan>, o: Oracle): Result
    decreases steps, 0
  {
    if steps == [] then DONE else Beside(ResultIn(steps[0], o), ResultOfAll(steps[1..], o))
  }

  function ResultOfDo(steps: seq<Plan>, o: Oracle): Result
    decreases steps, 0
  {
    if steps == [] then DONE else AfterSuccess(ResultIn(steps[0], o), ResultOfDo(steps[1..], o))
  }

  function ResultOfRetry(steps: seq<Plan>, o: Oracle): Result
    decreases steps, 0
  {
    if steps == [] then Result(Nil, None)
    else if |steps| == 1 then LastAttempt(ResultIn(steps[0], o))
    else NextAttempt(ResultIn(steps[0], o), ResultOfRetry(steps[1..], o))
  }

  lemma JoinedKind(a: Option<Error>, b: Option<Error>)
    ensures KindOf(Combined(a, b)) == Joined(KindOf(a), KindOf(b))
  {
    var errors := Append(Append([], a), b);
    MentionsAppend([], a);
    MentionsAppend(Append([], a), b);
    assert !MentionsAny([]);
    assert Mentions(Multi(errors)) <==> MentionsAny(errors);
  }

  predicate MentionsAny(errors: seq<Error>)
  {
    exists i | 0 <= i < |errors| :: Mentions(errors[i])
  }

  lemma MentionsAppend(errors: seq<Error>, e: Option<Error>)
    ensures MentionsAny(Append(errors, e)) <==> MentionsAny(errors) || (e.Some? && Mentions(e.value))
  {
    var all := Append(errors, e);
    assert forall i | 0 <= i < |errors| :: all[i] == errors[i];
    match e
    case None =>
    case Some(Multi(inner)) => assert forall i | 0 <= i < |inner| :: all[|errors| + i] == inner[i];
    case Some(other) => assert all[|errors|] == other;
  }

  lemma {:induction false} InitialIgnoresAttempts(p: Plan, a: Attempts, b: Attempts)
    ensures Initial(Compile(p, a)) == Initial(Compile(p, b))
    decreases p, 1
  {
    match p
    case Action(_) =>
    case Empty =>
    case Aggregate(_, steps) => InitialAllIgnore(steps, a, b);
    case Do(steps) => if steps != [] { InitialIgnoresAttempts(steps[0], a, b); }
    case Retry(steps) => InitialRetryIgnore(steps, 1, a, b);
    case Timeout(_, step, _) => InitialIgnoresAttempts(step, a, b);
    case Try(step) => InitialIgnoresAttempts(step, a, b);
    case OnAbort(step, _) => InitialIgnoresAttempts(step, a, b);
    case OnSuccess(step, _) => InitialIgnoresAttempts(step, a, b);
    case OnFailure(step, _) => InitialIgnoresAttempts(step, a, b);
    case Ensure(step, _) => InitialIgnoresAttempts(step, a, b);
  }

  lemma {:induction false} InitialAllIgnore(steps: seq<Plan>, a: Attempts, b: Attempts)
    ensures InitialAll(CompileAll(steps, a)) == InitialAll(CompileAll(steps, b))
    decreases steps, 0
  {
    if steps != [] {
      InitialIgnoresAttempts(steps[0], a, b);
      InitialAllIgnore(steps[1..], a, b);
      assert CompileAll(steps, a)[1..] == CompileAll(steps[1..], a);
      assert CompileAll(steps, b)[1..] == CompileAll(steps[1..], b);
    }
  }

  lemma {:induction false} InitialRetryIgnore(steps: seq<Plan>, index: nat, a: Attempts, b: Attempts)
    ensures InitialAll(CompileRetry(steps, index, a)) == InitialAll(CompileRetry(steps, index, b))
    decreases steps, 0
  {
    if steps != [] {
      InitialIgnoresAttempts(steps[0], a + [index], b + [index]);
      InitialRetryIgnore(steps[1..], index + 1, a, b);
      assert CompileRetry(steps, index, a)[1..] == CompileRetry(steps[1..], index + 1, a);
      assert CompileRetry(steps, index, b)[1..] == CompileRetry(steps[1..], index + 1, b);
    }
  }

  /** The results of compiled runs, on every plan and oracle. */
  lemma {:induction false} RunResult(p: Plan, attempts: Attempts, o: Oracle)
    ensures ResultOf(RunStep(Compile(p, attempts), o)) == ResultIn(p, o)
    decreases p, 1
  {
    match p
    case Action(_) =>
    case Empty =>
    case Aggregate(id, steps) => AggregateResult(id, steps, attempts, o);
    case Do(steps) => DoResult(steps, attempts, o);
    case Retry(steps) => if steps != [] { RetryResult([], steps, 1, None, None, attempts, o); }
    case Timeout(_, step, _) => RunResult(step, attempts, o); InitialIgnoresAttempts(step, attempts, []);
    case Try(step) => RunResult(step, attempts, o);
    case OnAbort(step, next) =>
      RunResult(step, attempts, o);
      RunResult(next, attempts, o);
      AbortResult(Compile(step, attempts), Compile(next, attempts), o);
    case OnSuccess(step, next) =>
      RunResult(step, attempts, o);
      RunResult(next, attempts, o);
      SuccessResult(Compile(step, attempts), Compile(next, attempts), o);
    case OnFailure(step, next) =>
      RunResult(step, attempts, o);
      RunResult(next, attempts, o);
      FailureResult(Compile(step, attempts), Compile(next, attempts), o);
    case Ensure(step, next) =>
      RunResult(step, attempts, o);
      RunResult(next, attempts, o);
      EnsureResult(Compile(step, attempts), Compile(next, attempts), o);
  }

  lemma KindMentions(e: Option<Error>)
    ensures e.None? <==> KindOf(e).Nil?
    ensures e.Some? ==> (Mentions(e.value) <==> KindOf(e).Bare? || KindOf(e).Reads?)
  {
  }

  lemma HookAnswer(s: StepState)
    ensures Succeeded(HookS(s)) == Succeeded(s)
  {
  }

  lemma PairAnswer(s: StepState, second: Option<StepState>)
    ensures Succeeded(PairS(s, second)) ==
      if Succeeded(s) != Some(true) then Succeeded(s) else if second.None? then None else Succeeded(second.value)
  {
  }

  /** A hook after an error that reads "interrupted". */
  lemma AbortRun(f: Factory, g: Factory, o: Oracle)
    ensures var r, n, u := RunStep(f, o), RunStep(g, o), RunStep(OnAbortF(f, g), o);
      if r.Panicked? then u == Panicked
      else if r.err.None? then u == Finished(None, HookS(r.state), r.trace)
      else if !Mentions(r.err.value) then u == Finished(Combined(r.err, None), HookS(r.state), r.trace)
      else if n.Panicked? then u == Panicked
      else u == Finished(Combined(r.err, n.err), HookS(r.state), r.trace + n.trace)
  {
    hide RunAll, RunRetry, RunErrors, RunStates, RunTraces, LeafResult, Initial, Mentions, Combined, Succeeded;
  }

  lemma SuccessRun(f: Factory, g: Factory, o: Oracle)
    ensures var r, n, u := RunStep(f, o), RunStep(g, o), RunStep(OnSuccessF(f, g), o);
      if r.Panicked? then u == Panicked
      else if r.err.Some? then u == Finished(r.err, PairS(r.state, None), r.trace)
      else if Succeeded(r.state) == Some(false) then u == Finished(None, PairS(r.state, None), r.trace)
      else if Succeeded(r.state).None? || n.Panicked? then u == Panicked
      else u == Finished(n.err, PairS(r.state, Some(n.state)), r.trace + n.trace)
  {
    hide RunAll, RunRetry, RunErrors, RunStates, RunTraces, LeafResult, Initial, Mentions, Combined, Succeeded;
  }

  lemma FailureRun(f: Factory, g: Factory, o: Oracle)
    ensures var r, n, u := RunStep(f, o), RunStep(g, o), RunStep(OnFailureF(f, g), o);
      if r.Panicked? then u == Panicked
      else if r.err.Some? || Succeeded(r.state) == Some(true) then u == Finished(r.err, HookS(r.state), r.trace)
      else if Succeeded(r.state).None? || n.Panicked? then u == Panicked
      else u == Finished(n.err, HookS(r.state), r.trace + n.trace)
  {
    hide RunAll, RunRetry, RunErrors, RunStates, RunTraces, LeafResult, Initial, Mentions, Combined, Succeeded;
  }

  lemma EnsureRun(f: Factory, g: Factory, o: Oracle)
    ensures var r, n, u := RunStep(f, o), RunStep(g, o), RunStep(EnsureF(f, g), o);
      if r.Panicked? then u == Panicked
      else if n.Panicked? then u == Panicked
      else u == Finished(Combined(r.err, n.err), PairS(r.state, Some(n.state)), r.trace + n.trace)
  {
    hide RunAll, RunRetry, RunErrors, RunStates, RunTraces, LeafResult, Initial, Mentions, Combined, Succeeded;
    var h := EnsureF(f, g);
    assert h.EnsureF? && h.first == f && h.second == g;
    if RunStep(h.first, o).Panicked? {
      assert RunStep(h, o).Panicked?;
    } else if RunStep(h.second, o).Panicked? {
      assert RunStep(h, o).Panicked?;
    }
  }

  lemma AbortResult(f: Factory, g: Factory, o: Oracle)
    ensures ResultOf(RunStep(OnAbortF(f, g), o)) == AfterAbort(ResultOf(RunStep(f, o)), ResultOf(RunStep(g, o)))
  {
    hide RunStep, KindOf, Mentions, Combined, Succeeded;
    AbortRun(f, g, o);
    var r, n := RunStep(f, o), RunStep(g, o);
    if r.Finished? {
      HookAnswer(r.state);
      KindMentions(r.err);
      JoinedKind(r.err, None);
      KindMentions(None);
      if n.Finished? { JoinedKind(r.err, n.err); }
    }
  }

  lemma SuccessResult(f: Factory, g: Factory, o: Oracle)
    ensures ResultOf(RunStep(OnSuccessF(f, g), o)) == AfterSuccess(ResultOf(RunStep(f, o)), ResultOf(RunStep(g, o)))
  {
    hide RunStep, KindOf, Mentions, Succeeded;
    SuccessRun(f, g, o);
    var r, n := RunStep(f, o), RunStep(g, o);
    if r.Finished? {
      KindMentions(r.err);
      PairAnswer(r.state, None);
      if n.Finished? { PairAnswer(r.state, Some(n.state)); }
    }
  }

  lemma FailureResult(f: Factory, g: Factory, o: Oracle)
    ensures ResultOf(RunStep(OnFailureF(f, g), o)) == AfterFailure(ResultOf(RunStep(f, o)), ResultOf(RunStep(g, o)))
  {
    hide RunStep, KindOf, Mentions, Succeeded;
    FailureRun(f, g, o);
    var r := RunStep(f, o);
    if r.Finished? {
      KindMentions(r.err);
      HookAnswer(r.state);
    }
    KindMentions(None);
  }

  lemma EnsureResult(f: Factory, g: Factory, o: Oracle)
    ensures ResultOf(RunStep(EnsureF(f, g), o)) == Always(ResultOf(RunStep(f, o)), ResultOf(RunStep(g, o)))
  {
    hide RunStep, KindOf, Mentions, Combined, Succeeded;
    EnsureRun(f, g, o);
    var r, n := RunStep(f, o), RunStep(g, o);
    if r.Finished? && n.Finished? {
      JoinedKind(r.err, n.err);
      PairAnswer(r.state, Some(n.state));
    }
  }

  lemma {:induction false} DoResult(steps: seq<Plan>, attempts: Attempts, o: Oracle)
    ensures ResultOf(RunStep(CompileDo(steps, attempts), o)) == ResultOfDo(steps, o)
    decreases steps, 0
  {
    if steps != [] {
      RunResult(steps[0], attempts, o);
      DoResult(steps[1..], attempts, o);
      SuccessResult(Compile(steps[0], attempts), CompileDo(steps[1..], attempts), o);
    }
  }

  lemma {:induction false} RetryResult(done: seq<StepState>, steps: seq<Plan>, index: nat, err: Option<Error>,
                                       last: Option<StepState>, attempts: Attempts, o: Oracle)
    requires steps != []
    ensures ResultOf(RunRetry(done, CompileRetry(steps, index, attempts), err, last, o)) == ResultOfRetry(steps, o)
    decreases steps, 0
  {
    hide Compile, RunStep, ResultIn;
    RunResult(steps[0], attempts + [index], o);
    var fs := CompileRetry(steps, index, attempts);
    assert fs[1..] == CompileRetry(steps[1..], index + 1, attempts);
    var r := RunStep(fs[0], o);
    if r.Finished? && |steps| > 1 {
      RetryResult(done + [r.state], steps[1..], index + 1, r.err, Some(r.state), attempts, o);
    }
  }

  /** Member results from first to last. */
  function BesideAll(rs: seq<Run>): Result
  {
    if rs == [] then DONE else Beside(ResultOf(rs[0]), BesideAll(rs[1..]))
  }

  lemma {:induction false} AllResult(steps: seq<Plan>, attempts: Attempts, o: Oracle)
    ensures BesideAll(RunAll(CompileAll(steps, attempts), o)) == ResultOfAll(steps, o)
    decreases steps, 0
  {
    if steps != [] {
      RunResult(steps[0], attempts, o);
      AllResult(steps[1..], attempts, o);
      var rs := RunAll(CompileAll(steps, attempts), o);
      assert rs[1..] == RunAll(CompileAll(steps[1..], attempts), o);
    }
  }

  lemma {:induction false} MembersResult(rs: seq<Run>)
    ensures BesideAll(rs).Panic? <==> exists i | 0 <= i < |rs| :: rs[i].Panicked?
    ensures (forall i | 0 <= i < |rs| :: rs[i].Finished?) ==>
      && BesideAll(rs).Result? && BesideAll(rs).answer == AllSucceeded(RunStates(rs))
      && (RunErrors(rs) == [] <==> BesideAll(rs).kind.Nil?)
      && (MentionsAny(RunErrors(rs)) <==> BesideAll(rs).kind.Reads?)
      && !BesideAll(rs).kind.Bare?
  {
    hide Mentions, MentionsAny;
    NoMentions();
    if rs != [] {
      MembersResult(rs[1..]);
      assert forall i | 1 <= i < |rs| :: rs[i] == rs[1..][i - 1];
      if forall i | 0 <= i < |rs| :: rs[i].Finished? {
        assert RunStates(rs)[1..] == RunStates(rs[1..]);
        var errors := if rs[0].err.Some? then [rs[0].err.value] else [];
        MentionsConcat(errors, RunErrors(rs[1..]));
        KindMentions(rs[0].err);
        if rs[0].err.Some? { OneMentions(rs[0].err.value); }
      }
    }
  }

  lemma NoMentions()
    ensures !MentionsAny([])
  {
  }

  lemma OneMentions(e: Error)
    ensures MentionsAny([e]) <==> Mentions(e)
  {
    assert [e][0] == e;
  }

  lemma MentionsConcat(a: seq<Error>, b: seq<Error>)
    ensures MentionsAny(a + b) <==> MentionsAny(a) || MentionsAny(b)
  {
    assert forall i | 0 <= i < |a| :: (a + b)[i] == a[i];
    assert forall i | 0 <= i < |b| :: (a + b)[|a| + i] == b[i];
  }

  lemma AggregateResult(id: PlanId, steps: seq<Plan>, attempts: Attempts, o: Oracle)
    ensures ResultOf(RunStep(Compile(Aggregate(id, steps), attempts), o)) == ResultIn(Aggregate(id, steps), o)
    decreases steps, 1
  {
    var rs := RunAll(CompileAll(steps, attempts), o);
    AllResult(steps, attempts, o);
    MembersResult(rs);
    assert Mentions(Sources(RunErrors(rs))) <==> MentionsAny(RunErrors(rs));
  }

  // ---- Over all oracles ------------------------------------------------------------------

  const OF_LEAF := {DONE, Result(Nil, Some(false)), Result(Bare, Some(false)), Result(Reads, Some(false)),
                    Result(Plain, Some(false))}

  /** All ways the plan can end. */
  function Possible(p: Plan): set<Result>
    decreases p, 1
  {
    match p
    case Action(id) => OF_LEAF
    case Empty => {DONE}
    case Aggregate(id, steps) => set signalled: bool, r | r in PossibleAll(steps) :: Signalled(signalled, r)
    case Do(steps) => PossibleDo(steps)
    case Retry(steps) => PossibleRetry(steps)
    case Timeout(id, step, duration) =>
      if duration.Unparsed? then {Result(KindOf(Some(Other(duration.text))), Unrun(step))}
      else set fired: bool, r | r in Possible(step) :: TimedOut(fired, r)
    case Try(step) => set r | r in Possible(step) :: Tried(r)
    case OnAbort(step, next) => set r, n | r in Possible(step) && n in Possible(next) :: AfterAbort(r, n)
    case OnSuccess(step, next) => set r, n | r in Possible(step) && n in Possible(next) :: AfterSuccess(r, n)
    case OnFailure(step, next) => set r, n | r in Possible(step) && n in Possible(next) :: AfterFailure(r, n)
    case Ensure(step, next) => set r, n | r in Possible(step) && n in Possible(next) :: Always(r, n)
  }

  function PossibleAll(steps: seq<Plan>): set<Result>
    decreases steps, 0
  {
    if steps == [] then {DONE}
    else set r, n | r in Possible(steps[0]) && n in PossibleAll(steps[1..]) :: Beside(r, n)
  }

  function PossibleDo(steps: seq<Plan>): set<Result>
    decreases steps, 0
  {
    if steps == [] then {DONE}
    else set r, n | r in Possible(steps[0]) && n in PossibleDo(steps[1..]) :: AfterSuccess(r, n)
  }

  function PossibleRetry(steps: seq<Plan>): set<Result>
    decreases steps, 0
  {
    if steps == [] then {Result(Nil, None)}
    else if |steps| == 1 then set r | r in Possible(steps[0]) :: LastAttempt(r)
    else set r, n | r in Possible(steps[0]) && n in PossibleRetry(steps[1..]) :: NextAttempt(r, n)
  }

  lemma {:induction false} IsPossible(p: Plan, o: Oracle)
    ensures ResultIn(p, o) in Possible(p)
    decreases p, 1
  {
    match p
    case Action(id) => LeafMeaning(o.actions(id));
    case Empty =>
    case Aggregate(_, steps) => AllIsPossible(steps, o);
    case Do(steps) => DoIsPossible(steps, o);
    case Retry(steps) => RetryIsPossible(steps, o);
    case Timeout(_, step, _) => IsPossible(step, o);
    case Try(step) => IsPossible(step, o);
    case OnAbort(step, next) => IsPossible(step, o); IsPossible(next, o);
    case OnSuccess(step, next) => IsPossible(step, o); IsPossible(next, o);
    case OnFailure(step, next) => IsPossible(step, o); IsPossible(next, o);
    case Ensure(step, next) => IsPossible(step, o); IsPossible(next, o);
  }

  lemma {:induction false} AllIsPossible(steps: seq<Plan>, o: Oracle)
    ensures ResultOfAll(steps, o) in PossibleAll(steps)
    decreases steps, 0
  {
    if steps != [] { IsPossible(steps[0], o); AllIsPossible(steps[1..], o); }
  }

  lemma {:induction false} DoIsPossible(steps: seq<Plan>, o: Oracle)
    ensures ResultOfDo(steps, o) in PossibleDo(steps)
    decreases steps, 0
  {
    if steps != [] { IsPossible(steps[0], o); DoIsPossible(steps[1..], o); }
  }

  lemma {:induction false} RetryIsPossible(steps: seq<Plan>, o: Oracle)
    ensures ResultOfRetry(steps, o) in PossibleRetry(steps)
    decreases steps, 0
  {
    if steps != [] { IsPossible(steps[0], o); RetryIsPossible(steps[1..], o); }
  }

  // ---- Each of them happens ----------------------------------------------------------------

  function IdsOf(p: Plan): set<PlanId>
    decreases p, 1
  {
    match p
    case Action(id) => {id}
    case Empty => {}
    case Aggregate(id, steps) => {id} + IdsOfAll(steps)
    case Do(steps) => IdsOfAll(steps)
    case Retry(steps) => IdsOfAll(steps)
    case Timeout(id, step, _) => {id} + IdsOf(step)
    case Try(step) => IdsOf(step)
    case OnAbort(step, next) => IdsOf(step) + IdsOf(next)
    case OnSuccess(step, next) => IdsOf(step) + IdsOf(next)
    case OnFailure(step, next) => IdsOf(step) + IdsOf(next)
    case Ensure(step, next) => IdsOf(step) + IdsOf(next)
  }

  function IdsOfAll(steps: seq<Plan>): set<PlanId>
    decreases steps, 0
  {
    if steps == [] then {} else IdsOf(steps[0]) + IdsOfAll(steps[1..])
  }

  /** No id occurs twice. */
  predicate Distinct(p: Plan)
    decreases p, 1
  {
    match p
    case Action(_) => true
    case Empty => true
    case Aggregate(id, steps) => id !in IdsOfAll(steps) && DistinctAll(steps)
    case Do(steps) => DistinctAll(steps)
    case Retry(steps) => DistinctAll(steps)
    case Timeout(id, step, _) => id !in IdsOf(step) && Distinct(step)
    case Try(step) => Distinct(step)
    case OnAbort(step, next) => Distinct(step) && Distinct(next) && IdsOf(step) !! IdsOf(next)
    case OnSuccess(step, next) => Distinct(step) && Distinct(next) && IdsOf(step) !! IdsOf(next)
    case OnFailure(step, next) => Distinct(step) && Distinct(next) && IdsOf(step) !! IdsOf(next)
    case Ensure(step, next) => Distinct(step) && Distinct(next) && IdsOf(step) !! IdsOf(next)
  }

  predicate DistinctAll(steps: seq<Plan>)
    decreases steps, 0
  {
    steps == [] || (Distinct(steps[0]) && DistinctAll(steps[1..]) && IdsOf(steps[0]) !! IdsOfAll(steps[1..]))
  }

  predicate Alike(o: Oracle, u: Oracle, ids: set<PlanId>)
  {
    forall id | id in ids ::
      o.actions(id) == u.actions(id) && o.fires(id) == u.fires(id) && o.signalled(id) == u.signalled(id)
  }

  function Merged(o: Oracle, u: Oracle, ids: set<PlanId>): Oracle
  {
    Oracle(id => if id in ids then o.actions(id) else u.actions(id),
           id => if id in ids then o.fires(id) else u.fires(id),
           id => if id in ids then o.signalled(id) else u.signalled(id))
  }

  /** A result depends on the plan's own ids alone. */
  lemma {:induction false} ResultIsLocal(p: Plan, o: Oracle, u: Oracle)
    requires Alike(o, u, IdsOf(p))
    ensures ResultIn(p, o) == ResultIn(p, u)
    decreases p, 1
  {
    match p
    case Action(_) =>
    case Empty =>
    case Aggregate(_, steps) => ListIsLocal(steps, o, u);
    case Do(steps) => ListIsLocal(steps, o, u);
    case Retry(steps) => ListIsLocal(steps, o, u);
    case Timeout(_, step, _) => ResultIsLocal(step, o, u);
    case Try(step) => ResultIsLocal(step, o, u);
    case OnAbort(step, next) => ResultIsLocal(step, o, u); ResultIsLocal(next, o, u);
    case OnSuccess(step, next) => ResultIsLocal(step, o, u); ResultIsLocal(next, o, u);
    case OnFailure(step, next) => ResultIsLocal(step, o, u); ResultIsLocal(next, o, u);
    case Ensure(step, next) => ResultIsLocal(step, o, u); ResultIsLocal(next, o, u);
  }

  lemma {:induction false} ListIsLocal(steps: seq<Plan>, o: Oracle, u: Oracle)
    requires Alike(o, u, IdsOfAll(steps))
    ensures ResultOfAll(steps, o) == ResultOfAll(steps, u)
    ensures ResultOfDo(steps, o) == ResultOfDo(steps, u)
    ensures ResultOfRetry(steps, o) == ResultOfRetry(steps, u)
    decreases steps, 0
  {
    if steps != [] {
      ResultIsLocal(steps[0], o, u);
      ListIsLocal(steps[1..], o, u);
    }
  }

  /** Two plans without a common id can end independently. */
  lemma BothHappen(p: Plan, n: Plan, o: Oracle, u: Oracle) returns (m: Oracle)
    requires IdsOf(p) !! IdsOf(n)
    ensures ResultIn(p, m) == ResultIn(p, o) && ResultIn(n, m) == ResultIn(n, u)
  {
    m := Merged(o, u, IdsOf(p));
    ResultIsLocal(p, m, o);
    ResultIsLocal(n, m, u);
  }

  lemma ListHappens(p: Plan, rest: seq<Plan>, o: Oracle, u: Oracle) returns (m: Oracle)
    requires IdsOf(p) !! IdsOfAll(rest)
    ensures ResultIn(p, m) == ResultIn(p, o)
    ensures ResultOfAll(rest, m) == ResultOfAll(rest, u)
    ensures ResultOfDo(rest, m) == ResultOfDo(rest, u)
    ensures ResultOfRetry(rest, m) == ResultOfRetry(rest, u)
  {
    m := Merged(o, u, IdsOf(p));
    ResultIsLocal(p, m, o);
    ListIsLocal(rest, m, u);
  }

  function Everywhere(results: seq<ActionResult>): Oracle
  {
    Oracle(_ => results, _ => false, _ => false)
  }

  lemma LeafHappens(id: PlanId, r: Result) returns (o: Oracle)
    requires r in OF_LEAF
    ensures ResultIn(Action(id), o) == r
  {
    var results :=
      if r == DONE then []
      else if r.kind.Nil? then [Exited(1)]
      else if r.kind.Bare? then [Aborted]
      else [Failed(Other(if r.kind.Reads? then INTERRUPTED_TEXT else ""))];
    o := Everywhere(results);
    LeafMeaning(results);
    assert results != [] ==> results[1..] == [];
  }

  function WithSignal(o: Oracle, id: PlanId, signalled: bool): Oracle
  {
    o.(signalled := x => if x == id then signalled else o.signalled(x))
  }

  function WithTimer(o: Oracle, id: PlanId, fired: bool): Oracle
  {
    o.(fires := x => if x == id then fired else o.fires(x))
  }

  lemma {:induction false} Happens(p: Plan, r: Result) returns (o: Oracle)
    requires Distinct(p) && r in Possible(p)
    ensures ResultIn(p, o) == r
    decreases p, 1
  {
    match p
    case Action(id) => o := LeafHappens(id, r);
    case Empty => o := Everywhere([]);
    case Aggregate(id, steps) =>
      var signalled: bool, all :| all in PossibleAll(steps) && Signalled(signalled, all) == r;
      o := AllHappen(steps, all);
      ListIsLocal(steps, o, WithSignal(o, id, signalled));
      o := WithSignal(o, id, signalled);
    case Do(steps) => o := DoHappens(steps, r);
    case Retry(steps) => o := RetryHappens(steps, r);
    case Timeout(id, step, duration) =>
      if duration.Unparsed? {
        o := Everywhere([]);
      } else {
        var fired: bool, inner :| inner in Possible(step) && TimedOut(fired, inner) == r;
        o := Happens(step, inner);
        ResultIsLocal(step, o, WithTimer(o, id, fired));
        o := WithTimer(o, id, fired);
      }
    case Try(step) =>
      var inner :| inner in Possible(step) && Tried(inner) == r;
      o := Happens(step, inner);
    case _ => o := PairHappens(p, r);
  }

  function Paired(p: Plan, a: Result, b: Result): Result
    requires p.OnAbort? || p.OnSuccess? || p.OnFailure? || p.Ensure?
  {
    match p
    case OnAbort(_, _) => AfterAbort(a, b)
    case OnSuccess(_, _) => AfterSuccess(a, b)
    case OnFailure(_, _) => AfterFailure(a, b)
    case Ensure(_, _) => Always(a, b)
  }

  lemma PairedResult(p: Plan, o: Oracle)
    requires p.OnAbort? || p.OnSuccess? || p.OnFailure? || p.Ensure?
    ensures ResultIn(p, o) == Paired(p, ResultIn(p.step, o), ResultIn(p.next, o))
  {
  }

  lemma PairedPossible(p: Plan, r: Result) returns (a: Result, b: Result)
    requires p.OnAbort? || p.OnSuccess? || p.OnFailure? || p.Ensure?
    requires r in Possible(p)
    ensures a in Possible(p.step) && b in Possible(p.next) && r == Paired(p, a, b)
  {
    hide AfterAbort, AfterSuccess, AfterFailure, Always;
    match p
    case OnAbort(s, n) => a, b :| a in Possible(s) && b in Possible(n) && r == AfterAbort(a, b);
    case OnSuccess(s, n) => a, b :| a in Possible(s) && b in Possible(n) && r == AfterSuccess(a, b);
    case OnFailure(s, n) => a, b :| a in Possible(s) && b in Possible(n) && r == AfterFailure(a, b);
    case Ensure(s, n) => a, b :| a in Possible(s) && b in Possible(n) && r == Always(a, b);
  }

  lemma {:induction false} PairHappens(p: Plan, r: Result) returns (o: Oracle)
    requires p.OnAbort? || p.OnSuccess? || p.OnFailure? || p.Ensure?
    requires Distinct(p) && r in Possible(p)
    ensures ResultIn(p, o) == r
    decreases p, 0
  {
    hide Possible, ResultIn, Paired;
    var a, b := PairedPossible(p, r);
    var u := Happens(p.step, a);
    var v := Happens(p.next, b);
    o := BothHappen(p.step, p.next, u, v);
    PairedResult(p, o);
  }

  lemma {:induction false} AllHappen(steps: seq<Plan>, r: Result) returns (o: Oracle)
    requires DistinctAll(steps) && r in PossibleAll(steps)
    ensures ResultOfAll(steps, o) == r
    decreases steps, 0
  {
    if steps == [] {
      o := Everywhere([]);
    } else {
      var a, b :| a in Possible(steps[0]) && b in PossibleAll(steps[1..]) && Beside(a, b) == r;
      var u := Happens(steps[0], a);
      var v := AllHappen(steps[1..], b);
      o := ListHappens(steps[0], steps[1..], u, v);
    }
  }

  lemma {:induction false} DoHappens(steps: seq<Plan>, r: Result) returns (o: Oracle)
    requires DistinctAll(steps) && r in PossibleDo(steps)
    ensures ResultOfDo(steps, o) == r
    decreases steps, 0
  {
    if steps == [] {
      o := Everywhere([]);
    } else {
      var a, b :| a in Possible(steps[0]) && b in PossibleDo(steps[1..]) && AfterSuccess(a, b) == r;
      var u := Happens(steps[0], a);
      var v := DoHappens(steps[1..], b);
      o := ListHappens(steps[0], steps[1..], u, v);
    }
  }

  lemma {:induction false} RetryHappens(steps: seq<Plan>, r: Result) returns (o: Oracle)
    requires DistinctAll(steps) && r in PossibleRetry(steps)
    ensures ResultOfRetry(steps, o) == r
    decreases steps, 0
  {
    if steps == [] {
      o := Everywhere([]);
    } else if |steps| == 1 {
      var a :| a in Possible(steps[0]) && LastAttempt(a) == r;
      o := Happens(steps[0], a);
    } else {
      var a, b :| a in Possible(steps[0]) && b in PossibleRetry(steps[1..]) && NextAttempt(a, b) == r;
      var u := Happens(steps[0], a);
      var v := RetryHappens(steps[1..], b);
      o := ListHappens(steps[0], steps[1..], u, v);
    }
  }

  // ---- The theorems --------------------------------------------------------------------------

  /** The results computed from a plan are exactly those of its compiled runs. */
  lemma PossibleIff(p: Plan, attempts: Attempts, r: Result)
    requires Distinct(p)
    ensures r in Possible(p) <==> exists o :: ResultOf(RunStep(Compile(p, attempts), o)) == r
  {
    if r in Possible(p) {
      var o := Happens(p, r);
      RunResult(p, attempts, o);
      assert ResultOf(RunStep(Compile(p, attempts), o)) == r;
    }
    if o :| ResultOf(RunStep(Compile(p, attempts), o)) == r {
      RunResult(p, attempts, o);
      IsPossible(p, o);
    }
  }

  predicate Answered(r: Result)
  {
    r.Result? && r.answer.Some?
  }

  /** The class of plans on which nothing touches a step that was not built, neither in
      `Run` nor in `Succeeded` afterwards, whatever happens and whatever signals come:
      exactly those all of whose possible results are answered. */
  lemma PanicFreeIff(p: Plan, attempts: Attempts)
    requires Distinct(p)
    ensures (forall r | r in Possible(p) :: Answered(r)) <==>
      forall o :: Answered(ResultOf(RunStep(Compile(p, attempts), o)))
  {
    if forall r | r in Possible(p) :: Answered(r) {
      forall o
        ensures Answered(ResultOf(RunStep(Compile(p, attempts), o)))
      {
        PossibleIff(p, attempts, ResultOf(RunStep(Compile(p, attempts), o)));
      }
    } else {
      var r :| r in Possible(p) && !Answered(r);
      PossibleIff(p, attempts, r);
    }
  }
}
