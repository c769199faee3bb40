/**
 * Plans on which asking `Succeeded` is safe after every run, whatever signals come
 * from outside. What matters is whether a step can return an error and still claim
 * success: a step that follows it was then never built.
 */
module SafePlans {
  import opened Options
  import opened Plans
  import opened StepMachine

  /** The step never returns the bare interrupt. */
  predicate NeverInterrupts(p: Plan)
  {
    match p
    case Action(_) => false
    case Empty => true
    case Aggregate(_, _) => false
    case Do(steps) => forall i | 0 <= i < |steps| :: NeverInterrupts(steps[i])
    case Retry(steps) => forall i | 0 <= i < |steps| :: NeverInterrupts(steps[i])
    case Timeout(_, step, _) => NeverInterrupts(step)
    case Try(step) => NeverInterrupts(step)
    case OnAbort(_, _) => true
    case OnSuccess(step, next) => NeverInterrupts(step) && NeverInterrupts(next)
    case OnFailure(step, next) => NeverInterrupts(step) && NeverInterrupts(next)
    case Ensure(_, _) => true
  }

  /** The step never claims success after an error. */
  predicate Honest(p: Plan)
  {
    match p
    case Action(_) => true
    case Empty => true
    case Aggregate(_, _) => false
    case Do(steps) => forall i | 0 <= i < |steps| :: Honest(steps[i])
    case Retry(steps) => forall i | 0 <= i < |steps| :: Honest(steps[i])
    case Timeout(_, step, _) => Honest(step)
    case Try(step) => NeverInterrupts(step)
    case OnAbort(step, _) => Honest(step)
    case OnSuccess(step, next) => Honest(step) && Honest(next)
    case OnFailure(step, _) => Honest(step)
    case Ensure(step, next) => Honest(step) && Honest(next)
  }

  /** Every step that another one waits for is honest. */
  predicate Sturdy(p: Plan)
  {
    match p
    case Action(_) => true
    case Empty => true
    case Aggregate(_, steps) => forall i | 0 <= i < |steps| :: Sturdy(steps[i])
    case Do(steps) => forall i | 0 <= i < |steps| :: Honest(steps[i])
    case Retry(steps) => forall i | 0 <= i < |steps| :: Sturdy(steps[i])
    case Timeout(_, step, _) => Sturdy(step)
    case Try(_) => true
    case OnAbort(step, _) => Sturdy(step)
    case OnSuccess(step, next) => Honest(step) && Sturdy(next)
    case OnFailure(step, _) => Sturdy(step)
    case Ensure(step, next) => Sturdy(step) && Sturdy(next)
  }

  // ---- On compiled steps -----------------------------------------------------------

  ghost predicate CannotInterrupt(f: Factory, o: Oracle)
  {
    var r := RunStep(f, o);
    r.Finished? ==> r.err != Some(Interrupted)
  }

  ghost predicate Tells(r: Run)
  {
    r.Finished? && r.err.Some? ==> Succeeded(r.state) == Some(false)
  }

  ghost predicate Answers(r: Run)
  {
    r.Finished? && r.err.Some? ==> Succeeded(r.state).Some?
  }

  ghost predicate NilIsAnswered(r: Run)
  {
    r.Finished? && (r.err.None? ==> Succeeded(r.state).Some?)
  }

  lemma NilAnswers(p: Plan, attempts: Attempts, o: Oracle)
    requires WellFormed(p)
    ensures NilIsAnswered(RunStep(Compile(p, attempts), o))
  {
    hide Compile, RunStep, Eval, WellFormed, Quiet;
    CompilerCorrect(p, attempts, o);
  }

  function BothRuns(r: Run, n: Run): Run
    requires r.Finished? && n.Finished?
  {
    Finished(Combined(r.err, n.err), PairS(r.state, Some(n.state)), r.trace + n.trace)
  }

  lemma PairTells(r: Run, n: Run)
    requires Tells(r) && Tells(n) && NilIsAnswered(r) && NilIsAnswered(n)
    ensures Tells(BothRuns(r, n))
  {
    var both := BothRuns(r, n);
    if both.err.Some? && r.err.None? {
      var first := Succeeded(r.state).value;
      assert Succeeded(r.state) == Some(first);
    }
  }

  lemma PairAnswers(r: Run, n: Run)
    requires Answers(r) && Answers(n) && NilIsAnswered(r) && NilIsAnswered(n)
    ensures Answers(BothRuns(r, n))
  {
  }

  lemma EnsureIsBoth(f: Factory, g: Factory, o: Oracle)
    requires RunStep(f, o).Finished? && RunStep(g, o).Finished?
    ensures RunStep(EnsureF(f, g), o) == BothRuns(RunStep(f, o), RunStep(g, o))
  {
  }

  lemma {:induction false} NeverInterruptsMeans(p: Plan, attempts: Attempts, o: Oracle)
    requires NeverInterrupts(p)
    ensures CannotInterrupt(Compile(p, attempts), o)
    decreases p, 1
  {
    match p
    case Empty =>
    case Do(steps) => DoNeverInterrupts(steps, attempts, o);
    case Retry(steps) => RetryNeverInterrupts([], steps, 1, None, None, attempts, o);
    case Timeout(_, step, _) => NeverInterruptsMeans(step, attempts, o);
    case Try(step) => NeverInterruptsMeans(step, attempts, o);
    case OnAbort(_, _) =>
    case OnSuccess(step, next) => NeverInterruptsMeans(step, attempts, o); NeverInterruptsMeans(next, attempts, o);
    case OnFailure(step, next) => NeverInterruptsMeans(step, attempts, o); NeverInterruptsMeans(next, attempts, o);
    case Ensure(_, _) =>
  }

  lemma {:induction false} DoNeverInterrupts(steps: seq<Plan>, attempts: Attempts, o: Oracle)
    requires forall i | 0 <= i < |steps| :: NeverInterrupts(steps[i])
    ensures CannotInterrupt(CompileDo(steps, attempts), o)
    decreases steps, 0
  {
    if steps != [] {
      NeverInterruptsMeans(steps[0], attempts, o);
      DoNeverInterrupts(steps[1..], attempts, o);
    }
  }

  lemma {:induction false} RetryNeverInterrupts(done: seq<StepState>, steps: seq<Plan>, index: nat, err: Option<Error>,
                                                last: Option<StepState>, attempts: Attempts, o: Oracle)
    requires (forall i | 0 <= i < |steps| :: NeverInterrupts(steps[i])) && err != Some(Interrupted)
    ensures var r := RunRetry(done, CompileRetry(steps, index, attempts), err, last, o);
      r.Finished? ==> r.err != Some(Interrupted)
    decreases steps, 0
  {
    hide Compile, RunStep;
    if steps != [] {
      NeverInterruptsMeans(steps[0], attempts + [index], o);
      var fs := CompileRetry(steps, index, attempts);
      assert fs[1..] == CompileRetry(steps[1..], index + 1, attempts);
      var r := RunStep(fs[0], o);
      if r.Finished? {
        RetryNeverInterrupts(done + [r.state], steps[1..], index + 1, r.err, Some(r.state), attempts, o);
      }
    }
  }

  lemma {:induction false} HonestMeans(p: Plan, attempts: Attempts, o: Oracle)
    requires WellFormed(p) && Honest(p)
    ensures Tells(RunStep(Compile(p, attempts), o))
    decreases p, 1
  {
    match p
    case Action(id) => LeafMeaning(o.actions(id));
    case Empty =>
    case Do(steps) => DoHonest(steps, attempts, o);
    case Retry(steps) => RetryHonest([], steps, 1, None, None, attempts, o);
    case Timeout(_, step, _) => HonestMeans(step, attempts, o);
    case Try(step) => NeverInterruptsMeans(step, attempts, o);
    case OnAbort(step, _) => HonestMeans(step, attempts, o);
    case OnSuccess(step, next) => HonestMeans(step, attempts, o); HonestMeans(next, attempts, o);
    case OnFailure(step, _) => HonestMeans(step, attempts, o);
    case Ensure(step, next) =>
      HonestMeans(step, attempts, o);
      HonestMeans(next, attempts, o);
      NilAnswers(step, attempts, o);
      NilAnswers(next, attempts, o);
      EnsureIsBoth(Compile(step, attempts), Compile(next, attempts), o);
      PairTells(RunStep(Compile(step, attempts), o), RunStep(Compile(next, attempts), o));
  }

  lemma {:induction false} DoHonest(steps: seq<Plan>, attempts: Attempts, o: Oracle)
    requires forall i | 0 <= i < |steps| :: WellFormed(steps[i]) && Honest(steps[i])
    ensures Tells(RunStep(CompileDo(steps, attempts), o))
    decreases steps, 0
  {
    if steps != [] {
      HonestMeans(steps[0], attempts, o);
      DoHonest(steps[1..], attempts, o);
    }
  }

  lemma {:induction false} RetryHonest(done: seq<StepState>, steps: seq<Plan>, index: nat, err: Option<Error>,
                                       last: Option<StepState>, attempts: Attempts, o: Oracle)
    requires forall i | 0 <= i < |steps| :: WellFormed(steps[i]) && Honest(steps[i])
    requires err.Some? ==> last.Some? && Succeeded(last.value) == Some(false)
    ensures Tells(RunRetry(done, CompileRetry(steps, index, attempts), err, last, o))
    decreases steps, 0
  {
    hide Compile, RunStep, WellFormed, Honest;
    if steps != [] {
      HonestMeans(steps[0], attempts + [index], o);
      var fs := CompileRetry(steps, index, attempts);
      assert fs[1..] == CompileRetry(steps[1..], index + 1, attempts);
      var r := RunStep(fs[0], o);
      if r.Finished? { RetryHonest(done + [r.state], steps[1..], index + 1, r.err, Some(r.state), attempts, o); }
    }
  }

  // ---- The theorem -----------------------------------------------------------------

  lemma {:induction false} SturdyAnswers(p: Plan, attempts: Attempts, o: Oracle)
    requires WellFormed(p) && Sturdy(p)
    ensures Answers(RunStep(Compile(p, attempts), o))
    decreases p, 1
  {
    match p
    case Action(_) =>
    case Empty =>
    case Do(steps) => DoHonest(steps, attempts, o);
    case Retry(steps) => RetrySturdy([], steps, 1, None, None, attempts, o);
    case Aggregate(id, steps) => AggregateSturdy(id, steps, attempts, o);
    case Timeout(_, step, _) => SturdyAnswers(step, attempts, o);
    case Try(_) =>
    case OnAbort(step, _) => SturdyAnswers(step, attempts, o);
    case OnSuccess(step, next) => HonestMeans(step, attempts, o); SturdyAnswers(next, attempts, o);
    case OnFailure(step, _) => SturdyAnswers(step, attempts, o);
    case Ensure(step, next) =>
      SturdyAnswers(step, attempts, o);
      SturdyAnswers(next, attempts, o);
      NilAnswers(step, attempts, o);
      NilAnswers(next, attempts, o);
      EnsureIsBoth(Compile(step, attempts), Compile(next, attempts), o);
      PairAnswers(RunStep(Compile(step, attempts), o), RunStep(Compile(next, attempts), o));
  }

  lemma {:induction false} RetrySturdy(done: seq<StepState>, steps: seq<Plan>, index: nat, err: Option<Error>,
                                       last: Option<StepState>, attempts: Attempts, o: Oracle)
    requires forall i | 0 <= i < |steps| :: WellFormed(steps[i]) && Sturdy(steps[i])
    requires err.Some? ==> last.Some? && Succeeded(last.value).Some?
    ensures Answers(RunRetry(done, CompileRetry(steps, index, attempts), err, last, o))
    decreases steps, 0
  {
    hide Compile, RunStep, WellFormed, Sturdy;
    if steps != [] {
      SturdyAnswers(steps[0], attempts + [index], o);
      var fs := CompileRetry(steps, index, attempts);
      assert fs[1..] == CompileRetry(steps[1..], index + 1, attempts);
      var r := RunStep(fs[0], o);
      if r.Finished? { RetrySturdy(done + [r.state], steps[1..], index + 1, r.err, Some(r.state), attempts, o); }
    }
  }

  lemma {:induction false} MembersSturdy(steps: seq<Plan>, attempts: Attempts, o: Oracle)
    requires forall i | 0 <= i < |steps| :: WellFormed(steps[i]) && Sturdy(steps[i])
    ensures var rs := RunAll(CompileAll(steps, attempts), o);
      && (forall i | 0 <= i < |rs| :: rs[i].Finished?)
      && AllSucceeded(RunStates(rs)).Some?
    decreases steps, 0
  {
    hide Compile, RunStep, WellFormed, Sturdy;
    if steps != [] {
      CompilerCorrect(steps[0], attempts, o);
      SturdyAnswers(steps[0], attempts, o);
      MembersSturdy(steps[1..], attempts, o);
      var rs := RunAll(CompileAll(steps, attempts), o);
      assert rs[1..] == RunAll(CompileAll(steps[1..], attempts), o);
      assert RunStates(rs)[1..] == RunStates(rs[1..]);
    }
  }

  lemma {:induction false} AggregateSturdy(id: PlanId, steps: seq<Plan>, attempts: Attempts, o: Oracle)
    requires forall i | 0 <= i < |steps| :: WellFormed(steps[i]) && Sturdy(steps[i])
    ensures Answers(RunStep(Compile(Aggregate(id, steps), attempts), o))
    decreases steps, 1
  {
    MembersSturdy(steps, attempts, o);
  }

  /** A well-formed plan in which every step that another waits for is honest never
      makes `Succeeded` touch a step that was not built, whatever the oracle. */
  lemma SturdyNeverPanics(p: Plan, attempts: Attempts, o: Oracle)
    requires WellFormed(p) && Sturdy(p)
    ensures var r := RunStep(Compile(p, attempts), o); r.Finished? && Succeeded(r.state).Some?
  {
    NilAnswers(p, attempts, o);
    SturdyAnswers(p, attempts, o);
  }
}
