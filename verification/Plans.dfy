/**
 * Build plans, the errors their steps return, and what a plan means.
 *
 * `Eval` is the reference: a direct big-step semantics of the plan tree. It
 * knows nothing about step objects; `StepMachine` and `StepObjects` compile the
 * plan and run it, and are proved against `Eval`.
 */
module Plans {
  import opened Options

  type PlanId = string

  // `time.ParseDuration` is a parameter of the model: a duration either parses or it does not.
  datatype Duration = Parsed | Unparsed(text: string)

  datatype Plan =
    | Action(id: PlanId)                       // task, get or put
    | Empty                                    // no field set
    | Aggregate(id: PlanId, steps: seq<Plan>)
    | Do(steps: seq<Plan>)
    | Retry(steps: seq<Plan>)
    | Timeout(id: PlanId, step: Plan, duration: Duration)
    | Try(step: Plan)
    | OnAbort(step: Plan, next: Plan)
    | OnSuccess(step: Plan, next: Plan)
    | OnFailure(step: Plan, next: Plan)
    | Ensure(step: Plan, next: Plan)

  /** `Interrupted` is the one value `exec.ErrInterrupted`; any other error that
      merely reads "interrupted" is an `Other`. */
  datatype Error =
    | Interrupted
    | Other(text: string)
    | Multi(errors: seq<Error>)                // go-multierror
    | Sources(errors: seq<Error>)              // "sources failed:\n..."

  const INTERRUPTED_TEXT := "interrupted"

  predicate ContainsText(text: string, word: string)
  {
    word <= text || (text != [] && ContainsText(text[1..], word))
  }

  /** strings.Contains(err.Error(), "interrupted"): the composite texts are their
      members' texts joined by newlines, so the word never spans two members. */
  predicate Mentions(e: Error)
  {
    match e
    case Interrupted => true
    case Other(text) => ContainsText(text, INTERRUPTED_TEXT)
    case Multi(errors) => exists i | 0 <= i < |errors| :: Mentions(errors[i])
    case Sources(errors) => exists i | 0 <= i < |errors| :: Mentions(errors[i])
  }

  /** multierror.Append flattens a multierror that is appended to another one. */
  function Append(errors: seq<Error>, e: Option<Error>): seq<Error>
  {
    match e
    case None => errors
    case Some(Multi(inner)) => errors + inner
    case Some(other) => errors + [other]
  }

  function Combined(first: Option<Error>, second: Option<Error>): Option<Error>
  {
    if first.None? && second.None? then None
    else Some(Multi(Append(Append([], first), second)))
  }

  /** One action of a leaf: it exits with a status, is aborted by a signal, or fails. */
  datatype ActionResult = Exited(status: int) | Aborted | Failed(err: Error)

  /** What the world does during one run: the results of each leaf's actions,
      which timers fire before their step exits, and which aggregates receive a
      signal before all their members exited. */
  datatype Oracle = Oracle(
    actions: PlanId -> seq<ActionResult>,
    fires: PlanId -> bool,
    signalled: PlanId -> bool)

  type Attempts = seq<nat>

  /** A run's leaves in order; `Par` stands for every interleaving of its branches. */
  datatype Event = Ran(id: PlanId, attempts: Attempts) | Par(branches: seq<seq<Event>>)

  datatype Outcome = Outcome(err: Option<Error>, ok: bool, trace: seq<Event>)

  function LeafResult(results: seq<ActionResult>): (Option<Error>, bool)
  {
    if results == [] then (None, true)
    else match results[0]
      case Aborted => (Some(Interrupted), false)
      case Failed(e) => (Some(e), false)
      case Exited(status) =>
        var (e, ok) := LeafResult(results[1..]);
        (e, ok && status == 0)
  }

  function Errors(rs: seq<Outcome>): seq<Error>
  {
    if rs == [] then []
    else (if rs[0].err.Some? then [rs[0].err.value] else []) + Errors(rs[1..])
  }

  predicate AllOk(rs: seq<Outcome>)
  {
    forall i | 0 <= i < |rs| :: rs[i].ok
  }

  function Traces(rs: seq<Outcome>): (t: seq<seq<Event>>)
    ensures |t| == |rs|
  {
    if rs == [] then [] else [rs[0].trace] + Traces(rs[1..])
  }

  /** `n` happens only after a success of `r`. */
  function Then(r: Outcome, n: Outcome): Outcome
  {
    if r.err.Some? || !r.ok then r.(ok := false) else n.(trace := r.trace + n.trace)
  }

  /** `n` happens only after a failure of `r`, and the failure stays. */
  function IfFailed(r: Outcome, n: Outcome): Outcome
  {
    if r.err.Some? || r.ok then r else Outcome(n.err, false, r.trace + n.trace)
  }

  /** `n` happens only after an error of `r` that reads "interrupted"; the error stays. */
  function IfAborted(r: Outcome, n: Outcome): Outcome
  {
    if r.err.None? then r
    else if Mentions(r.err.value) then Outcome(Combined(r.err, n.err), false, r.trace + n.trace)
    else Outcome(Combined(r.err, None), false, r.trace)
  }

  /** `n` always happens; success needs both. */
  function Both(r: Outcome, n: Outcome): Outcome
  {
    Outcome(Combined(r.err, n.err), r.ok && n.ok && r.err.None? && n.err.None?, r.trace + n.trace)
  }

  function Eval(p: Plan, attempts: Attempts, o: Oracle): Outcome
    decreases p, 1
  {
    match p
    case Action(id) =>
      var (e, ok) := LeafResult(o.actions(id));
      Outcome(e, ok, [Ran(id, attempts)])
    case Empty => Outcome(None, true, [])
    case Do(steps) => EvalDo(steps, attempts, o)
    case Retry(steps) => EvalRetry(steps, 1, attempts, o)
    case Aggregate(id, steps) =>
      var rs := EvalAll(steps, attempts, o);
      var trace := [Par(Traces(rs))];
      if o.signalled(id) then Outcome(Some(Interrupted), false, trace)
      else if Errors(rs) != [] then Outcome(Some(Sources(Errors(rs))), false, trace)
      else Outcome(None, AllOk(rs), trace)
    case Timeout(id, step, duration) =>
      if duration.Unparsed? then Outcome(Some(Other(duration.text)), false, [])
      else
        var r := Eval(step, attempts, o);
        if o.fires(id) then Outcome(None, false, r.trace) else r
    case Try(step) =>
      var r := Eval(step, attempts, o);
      if r.err == Some(Interrupted) then r.(ok := false) else Outcome(None, true, r.trace)
    case OnAbort(step, next) => IfAborted(Eval(step, attempts, o), Eval(next, attempts, o))
    case OnSuccess(step, next) => Then(Eval(step, attempts, o), Eval(next, attempts, o))
    case OnFailure(step, next) => IfFailed(Eval(step, attempts, o), Eval(next, attempts, o))
    case Ensure(step, next) => Both(Eval(step, attempts, o), Eval(next, attempts, o))
  }

  /** `do`: in order, up to the first step that does not succeed. */
  function EvalDo(steps: seq<Plan>, attempts: Attempts, o: Oracle): Outcome
    decreases steps, 0
  {
    if steps == [] then Outcome(None, true, [])
    else
      Then(Eval(steps[0], attempts, o), EvalDo(steps[1..], attempts, o))
  }

  /** `retry`: in order, up to the first success or the first bare interrupt; the
      last attempt made decides. Without attempts there is nothing to decide. */
  function EvalRetry(steps: seq<Plan>, index: nat, attempts: Attempts, o: Oracle): Outcome
    decreases steps, 0
  {
    if steps == [] then Outcome(None, false, [])
    else
      var r := Eval(steps[0], attempts + [index], o);
      if r.err == Some(Interrupted) || (r.err.None? && r.ok) || |steps| == 1 then r
      else
        var n := EvalRetry(steps[1..], index + 1, attempts, o);
        n.(trace := r.trace + n.trace)
  }

  function EvalAll(steps: seq<Plan>, attempts: Attempts, o: Oracle): (rs: seq<Outcome>)
    ensures |rs| == |steps|
    decreases steps, 0
  {
    if steps == [] then [] else [Eval(steps[0], attempts, o)] + EvalAll(steps[1..], attempts, o)
  }

  /** The plans the step machine is safe on: every retry has an attempt and every duration parses. */
  predicate WellFormed(p: Plan)
  {
    match p
    case Action(_) => true
    case Empty => true
    case Aggregate(_, steps) => forall i | 0 <= i < |steps| :: WellFormed(steps[i])
    case Do(steps) => forall i | 0 <= i < |steps| :: WellFormed(steps[i])
    case Retry(steps) => steps != [] && forall i | 0 <= i < |steps| :: WellFormed(steps[i])
    case Timeout(_, step, duration) => duration.Parsed? && WellFormed(step)
    case Try(step) => WellFormed(step)
    case OnAbort(step, next) => WellFormed(step) && WellFormed(next)
    case OnSuccess(step, next) => WellFormed(step) && WellFormed(next)
    case OnFailure(step, next) => WellFormed(step) && WellFormed(next)
    case Ensure(step, next) => WellFormed(step) && WellFormed(next)
  }

  /** No signal came from outside: leaves are interrupted and aggregates are
      signalled only below a timeout whose timer fired. */
  predicate Quiet(p: Plan, o: Oracle)
  {
    match p
    case Action(id) => LeafResult(o.actions(id)).0 != Some(Interrupted)
    case Empty => true
    case Aggregate(id, steps) => !o.signalled(id) && forall i | 0 <= i < |steps| :: Quiet(steps[i], o)
    case Do(steps) => forall i | 0 <= i < |steps| :: Quiet(steps[i], o)
    case Retry(steps) => forall i | 0 <= i < |steps| :: Quiet(steps[i], o)
    case Timeout(id, step, _) => o.fires(id) || Quiet(step, o)
    case Try(step) => Quiet(step, o)
    case OnAbort(step, next) => Quiet(step, o) && Quiet(next, o)
    case OnSuccess(step, next) => Quiet(step, o) && Quiet(next, o)
    case OnFailure(step, next) => Quiet(step, o) && Quiet(next, o)
    case Ensure(step, next) => Quiet(step, o) && Quiet(next, o)
  }

  /** A leaf succeeds exactly when every action exited with status 0, and its
      error is that of the first action that did not exit. */
  lemma {:induction false} LeafMeaning(results: seq<ActionResult>)
    ensures LeafResult(results).1 <==> forall i | 0 <= i < |results| :: results[i] == Exited(0)
    ensures LeafResult(results).0.None? <==> forall i | 0 <= i < |results| :: results[i].Exited?
    ensures LeafResult(results).0.Some? ==>
      exists k | 0 <= k < |results| ::
        && (forall i | 0 <= i < k :: results[i].Exited?)
        && (results[k] == Aborted || results[k] == Failed(LeafResult(results).0.value))
        && (results[k] == Aborted ==> LeafResult(results).0 == Some(Interrupted))
  {
    if results != [] {
      var tail := results[1..];
      LeafMeaning(tail);
      assert forall i | 1 <= i < |results| :: results[i] == tail[i - 1];
      if results[0].Exited? && LeafResult(results).0.Some? {
        var k :| 0 <= k < |tail| && (forall i | 0 <= i < k :: tail[i].Exited?)
          && (tail[k] == Aborted || tail[k] == Failed(LeafResult(tail).0.value))
          && (tail[k] == Aborted ==> LeafResult(tail).0 == Some(Interrupted));
        assert results[k + 1] == tail[k];
        assert forall i | 0 <= i < k + 1 :: results[i].Exited?;
      }
    }
  }

  lemma {:induction false} ErrorsMeaning(rs: seq<Outcome>)
    ensures Errors(rs) == [] <==> forall i | 0 <= i < |rs| :: rs[i].err.None?
  {
    if rs != [] {
      ErrorsMeaning(rs[1..]);
      assert forall i | 1 <= i < |rs| :: rs[i] == rs[1..][i - 1];
    }
  }

  lemma {:induction false} EvalAllAt(steps: seq<Plan>, attempts: Attempts, o: Oracle, i: nat)
    requires i < |steps|
    ensures EvalAll(steps, attempts, o)[i] == Eval(steps[i], attempts, o)
  {
    if i > 0 {
      EvalAllAt(steps[1..], attempts, o, i - 1);
    }
  }

  /** An error is never a success, in any run. */
  lemma {:induction false} ErrorIsNoSuccess(p: Plan, attempts: Attempts, o: Oracle)
    ensures Eval(p, attempts, o).err.Some? ==> !Eval(p, attempts, o).ok
    decreases p, 1
  {
    match p
    case Action(id) => LeafMeaning(o.actions(id));
    case Empty =>
    case Do(steps) => DoErrorIsNoSuccess(steps, attempts, o);
    case Retry(steps) => RetryErrorIsNoSuccess(steps, 1, attempts, o);
    case Aggregate(_, _) =>
    case Timeout(_, step, _) => ErrorIsNoSuccess(step, attempts, o);
    case Try(step) =>
    case OnAbort(step, next) =>
    case OnSuccess(step, next) => ErrorIsNoSuccess(next, attempts, o);
    case OnFailure(step, next) => ErrorIsNoSuccess(step, attempts, o);
    case Ensure(step, next) =>
  }

  lemma {:induction false} DoErrorIsNoSuccess(steps: seq<Plan>, attempts: Attempts, o: Oracle)
    ensures EvalDo(steps, attempts, o).err.Some? ==> !EvalDo(steps, attempts, o).ok
    decreases steps, 0
  {
    if steps != [] {
      DoErrorIsNoSuccess(steps[1..], attempts, o);
    }
  }

  lemma {:induction false} RetryErrorIsNoSuccess(steps: seq<Plan>, index: nat, attempts: Attempts, o: Oracle)
    ensures EvalRetry(steps, index, attempts, o).err.Some? ==> !EvalRetry(steps, index, attempts, o).ok
    decreases steps, 0
  {
    if steps != [] {
      ErrorIsNoSuccess(steps[0], attempts + [index], o);
      RetryErrorIsNoSuccess(steps[1..], index + 1, attempts, o);
    }
  }

  /** Without a signal from outside no step returns the bare interrupt, even when
      inner timeouts interrupted whole subtrees. */
  lemma {:induction false} QuietNeverInterrupted(p: Plan, attempts: Attempts, o: Oracle)
    requires Quiet(p, o)
    ensures Eval(p, attempts, o).err != Some(Interrupted)
    decreases p, 1
  {
    match p
    case Action(_) =>
    case Empty =>
    case Do(steps) => QuietDoNeverInterrupted(steps, attempts, o);
    case Retry(steps) => QuietRetryNeverInterrupted(steps, 1, attempts, o);
    case Aggregate(_, _) =>
    case Timeout(id, step, _) => if !o.fires(id) { QuietNeverInterrupted(step, attempts, o); }
    case Try(step) => QuietNeverInterrupted(step, attempts, o);
    case OnAbort(step, next) =>
    case OnSuccess(step, next) =>
      QuietNeverInterrupted(step, attempts, o);
      QuietNeverInterrupted(next, attempts, o);
    case OnFailure(step, next) =>
      QuietNeverInterrupted(step, attempts, o);
      QuietNeverInterrupted(next, attempts, o);
    case Ensure(step, next) =>
  }

  lemma {:induction false} QuietDoNeverInterrupted(steps: seq<Plan>, attempts: Attempts, o: Oracle)
    requires forall i | 0 <= i < |steps| :: Quiet(steps[i], o)
    ensures EvalDo(steps, attempts, o).err != Some(Interrupted)
    decreases steps, 0
  {
    if steps != [] {
      QuietNeverInterrupted(steps[0], attempts, o);
      QuietDoNeverInterrupted(steps[1..], attempts, o);
    }
  }

  lemma {:induction false} QuietRetryNeverInterrupted(steps: seq<Plan>, index: nat, attempts: Attempts, o: Oracle)
    requires forall i | 0 <= i < |steps| :: Quiet(steps[i], o)
    ensures EvalRetry(steps, index, attempts, o).err != Some(Interrupted)
    decreases steps, 0
  {
    if steps != [] {
      QuietNeverInterrupted(steps[0], attempts + [index], o);
      QuietRetryNeverInterrupted(steps[1..], index + 1, attempts, o);
    }
  }

  predicate Good(r: Outcome)
  {
    r.err.None? && r.ok
  }

  /** The leaves of outcomes one after another. */
  function InTurn(rs: seq<Outcome>): seq<Event>
  {
    if rs == [] then [] else rs[0].trace + InTurn(rs[1..])
  }

  /** `do` runs its steps in order and stops after the first that does not succeed,
      whose error is its own; it succeeds when there is none. */
  lemma {:induction false} DoMeaning(steps: seq<Plan>, attempts: Attempts, o: Oracle) returns (k: nat)
    ensures k <= |steps|
    ensures forall i | 0 <= i < k :: Good(EvalAll(steps, attempts, o)[i])
    ensures k < |steps| ==> !Good(EvalAll(steps, attempts, o)[k])
    ensures var r, rs := EvalDo(steps, attempts, o), EvalAll(steps, attempts, o);
      && r.ok == (k == |steps|)
      && r.err == (if k == |steps| then None else rs[k].err)
      && r.trace == InTurn(if k == |steps| then rs else rs[..k + 1])
    decreases |steps|
  {
    hide Eval;
    k := 0;
    if steps != [] {
      var rs, rest := EvalAll(steps, attempts, o), EvalAll(steps[1..], attempts, o);
      assert rs[0] == Eval(steps[0], attempts, o) && rs[1..] == rest;
      if Good(rs[0]) {
        var n := DoMeaning(steps[1..], attempts, o);
        k := n + 1;
        if n < |rest| { assert rs[..k + 1][1..] == rest[..n + 1]; }
      } else {
        assert rs[..1] == [rs[0]] && [rs[0]][1..] == [];
      }
    }
  }

  /** What each attempt of a retry would give. */
  function EvalAttempts(steps: seq<Plan>, index: nat, attempts: Attempts, o: Oracle): (rs: seq<Outcome>)
    ensures |rs| == |steps|
    ensures forall i | 0 <= i < |steps| :: rs[i] == Eval(steps[i], attempts + [index + i], o)
  {
    seq(|steps|, i requires 0 <= i < |steps| => Eval(steps[i], attempts + [index + i], o))
  }

  predicate EndsRetry(r: Outcome)
  {
    Good(r) || r.err == Some(Interrupted)
  }

  /** A retry makes its attempts in order, stops after the first success or bare
      interrupt, and takes its result from the last attempt made. */
  lemma {:induction false} RetryMeaning(steps: seq<Plan>, index: nat, attempts: Attempts, o: Oracle) returns (k: nat)
    requires steps != []
    ensures k < |steps|
    ensures forall i | 0 <= i < k :: !EndsRetry(EvalAttempts(steps, index, attempts, o)[i])
    ensures k + 1 < |steps| ==> EndsRetry(EvalAttempts(steps, index, attempts, o)[k])
    ensures var r, rs := EvalRetry(steps, index, attempts, o), EvalAttempts(steps, index, attempts, o);
      r.err == rs[k].err && r.ok == rs[k].ok && r.trace == InTurn(rs[..k + 1])
    decreases |steps|
  {
    hide Eval;
    var rs := EvalAttempts(steps, index, attempts, o);
    if EndsRetry(rs[0]) || |steps| == 1 {
      k := 0;
      assert rs[..1] == [rs[0]] && [rs[0]][1..] == [];
    } else {
      var n := RetryMeaning(steps[1..], index + 1, attempts, o);
      k := n + 1;
      var rest := EvalAttempts(steps[1..], index + 1, attempts, o);
      assert rest == rs[1..] by {
        assert forall i | 0 <= i < |rest| :: steps[1..][i] == steps[i + 1] && index + 1 + i == index + (i + 1);
      }
      assert rs[..k + 1][1..] == rest[..n + 1];
    }
  }
}
