/**
 * One build from plan to final status (engine/exec_engine.go, `Resume`), the
 * attempt numbers its leaves get, and what goes wrong outside the conditions
 * of `CompilerCorrect`.
 */
module BuildRun {
  import opened Options
  import opened Plans
  import opened StepMachine
  import opened StepObjects

  datatype Status = StatusAborted | StatusErrored | StatusSucceeded | StatusFailed

  /** exec_engine_build_delegate.go, Finish. */
  function FinalStatus(aborted: bool, err: Option<Error>, succeeded: bool): Status
  {
    if aborted then StatusAborted
    else if err.Some? then StatusErrored
    else if succeeded then StatusSucceeded else StatusFailed
  }

  /** What the select loop of Resume receives. */
  datatype Wakeup = Killed | StepExited | Released

  /** The step's exit is received at `k`: nothing but kills came before it. */
  predicate ExitsAt(wakeups: seq<Wakeup>, k: nat)
  {
    k < |wakeups| && wakeups[k].StepExited? && forall i | 0 <= i < k :: wakeups[i].Killed?
  }

  /** The exit is received, before any release, and a kill came before it or not. */
  ghost predicate Exits(wakeups: seq<Wakeup>, killed: bool)
  {
    exists k: nat :: ExitsAt(wakeups, k) && (killed <==> exists i | 0 <= i < k :: wakeups[i].Killed?)
  }

  lemma ExitIs(wakeups: seq<Wakeup>, k: nat, killed: bool)
    requires ExitsAt(wakeups, k)
    ensures Exits(wakeups, killed) <==> (killed <==> k > 0)
  {
    assert k > 0 ==> wakeups[0].Killed?;
    if k' :| ExitsAt(wakeups, k') && (killed <==> exists i | 0 <= i < k' :: wakeups[i].Killed?) {
      assert k' == k;
    }
    if killed <==> k > 0 {
      assert killed <==> exists i | 0 <= i < k :: wakeups[i].Killed?;
    }
  }

  /** Resume compiles the plan, runs the step objects and reports to Finish at
      most once. For every plan, every oracle and every order of wake-ups the
      recorded status is the one the plan's meaning calls for, or aborted if a kill
      came before the exit. A kill is the only signal from outside, so an exit
      without one was quiet; that is also why asking `Succeeded` is safe. */
  method Resume(p: Plan, o: Oracle, wakeups: seq<Wakeup>) returns (finished: Option<Status>)
    requires WellFormed(p)
    requires Exits(wakeups, false) ==> Quiet(p, o)
    ensures var m := Eval(p, [], o);
      && (finished == Some(StatusSucceeded) <==> Exits(wakeups, false) && m.err.None? && m.ok)
      && (finished == Some(StatusFailed) <==> Exits(wakeups, false) && m.err.None? && !m.ok)
      && (finished == Some(StatusErrored) <==> Exits(wakeups, false) && m.err.Some?)
      && (finished == Some(StatusAborted) <==> Exits(wakeups, true))
      && (finished.None? <==> !Exits(wakeups, false) && !Exits(wakeups, true))
  {
    hide Compile, RunStep, Eval, WellFormed, Quiet, Initial, Exits;
    var factory := BuildStepFactory(p, []);
    var step := Step.Using(factory);
    CompilerCorrect(p, [], o);
    var err, trace := step.Run(o);
    var aborted := false;
    var i := 0;
    while i < |wakeups|
      invariant 0 <= i <= |wakeups|
      invariant forall k | 0 <= k < i :: wakeups[k].Killed?
      invariant aborted <==> i > 0
    {
      match wakeups[i] {
        case Released =>
          NoExit(wakeups, i);
          return None;
        case Killed => aborted := true;
        case StepExited =>
          ExitIs(wakeups, i, true);
          ExitIs(wakeups, i, false);
          var succeeded := false;
          if !aborted {
            succeeded := step.Succeeded();
          }
          return Some(FinalStatus(aborted, err, succeeded));
      }
      i := i + 1;
    }
    NoExit(wakeups, i);
    return None;
  }

  lemma NoExit(wakeups: seq<Wakeup>, i: nat)
    requires i <= |wakeups| && forall k | 0 <= k < i :: wakeups[k].Killed?
    requires i < |wakeups| ==> wakeups[i].Released?
    ensures !Exits(wakeups, false) && !Exits(wakeups, true)
  {
  }

  // ---- Attempt numbers -------------------------------------------------------

  function Kids(p: Plan): (kids: seq<Plan>)
    ensures forall i | 0 <= i < |kids| :: kids[i] < p
  {
    match p
    case Action(_) => []
    case Empty => []
    case Aggregate(_, steps) => steps
    case Do(steps) => steps
    case Retry(steps) => steps
    case Timeout(_, step, _) => [step]
    case Try(step) => [step]
    case OnAbort(step, next) => [step, next]
    case OnSuccess(step, next) => [step, next]
    case OnFailure(step, next) => [step, next]
    case Ensure(step, next) => [step, next]
  }

  type Leaf = (PlanId, Attempts)

  /** The leaf at the end of a path of child indices, with the one-based indices
      that path takes at retries. */
  function LeafAt(p: Plan, path: seq<nat>): Option<Leaf>
    decreases |path|
  {
    if path == [] then
      if p.Action? then Some((p.id, [])) else None
    else if path[0] >= |Kids(p)| then None
    else
      var below := LeafAt(Kids(p)[path[0]], path[1..]);
      if below.None? then None
      else Some((below.value.0, (if p.Retry? then [path[0] + 1] else []) + below.value.1))
  }

  /** The leaves a factory will create containers for. */
  function Leaves(f: Factory): set<Leaf>
    decreases f, 1
  {
    match f
    case IdentityF => {}
    case ActionsF(id, attempts) => {(id, attempts)}
    case AggregateF(_, fs) => LeavesOf(fs)
    case RetryF(fs) => LeavesOf(fs)
    case TimeoutF(_, first, _) => Leaves(first)
    case TryF(first) => Leaves(first)
    case OnAbortF(first, second) => Leaves(first) + Leaves(second)
    case OnSuccessF(first, second) => Leaves(first) + Leaves(second)
    case OnFailureF(first, second) => Leaves(first) + Leaves(second)
    case EnsureF(first, second) => Leaves(first) + Leaves(second)
  }

  function LeavesOf(fs: seq<Factory>): set<Leaf>
    decreases fs, 0
  {
    if fs == [] then {} else Leaves(fs[0]) + LeavesOf(fs[1..])
  }

  /** The attempts a child is compiled with. */
  function Numbered(p: Plan, attempts: Attempts, i: nat): Attempts
  {
    if p.Retry? then attempts + [i + 1] else attempts
  }

  /** A compiled plan's leaves are its children's leaves. */
  lemma LeavesByChild(p: Plan, attempts: Attempts, leaf: Leaf)
    requires !p.Action?
    ensures leaf in Leaves(Compile(p, attempts)) <==>
      exists i | 0 <= i < |Kids(p)| :: leaf in Leaves(Compile(Kids(p)[i], Numbered(p, attempts, i)))
  {
    hide Compile, Leaves, LeavesOf, CompileAll, CompileDo, CompileRetry;
    match p
    case Empty => ListLeaves(p, attempts);
    case Aggregate(_, steps) => ListByChild(p, attempts, leaf);
    case Do(steps) => ListByChild(p, attempts, leaf);
    case Retry(steps) => RetryByChild(p, attempts, leaf);
    case Timeout(_, step, _) => WrapperLeaves(p, step, attempts); assert Kids(p)[0] == step;
    case Try(step) => WrapperLeaves(p, step, attempts); assert Kids(p)[0] == step;
    case OnAbort(step, next) => PairLeaves(p, step, next, attempts); assert Kids(p)[0] == step && Kids(p)[1] == next;
    case OnSuccess(step, next) => PairLeaves(p, step, next, attempts); assert Kids(p)[0] == step && Kids(p)[1] == next;
    case OnFailure(step, next) => PairLeaves(p, step, next, attempts); assert Kids(p)[0] == step && Kids(p)[1] == next;
    case Ensure(step, next) => PairLeaves(p, step, next, attempts); assert Kids(p)[0] == step && Kids(p)[1] == next;
  }

  lemma ListByChild(p: Plan, attempts: Attempts, leaf: Leaf)
    requires p.Aggregate? || p.Do?
    ensures leaf in Leaves(Compile(p, attempts)) <==>
      exists i | 0 <= i < |Kids(p)| :: leaf in Leaves(Compile(Kids(p)[i], Numbered(p, attempts, i)))
  {
    hide Compile, Leaves, LeavesOf, CompileAll, CompileDo;
    ListLeaves(p, attempts);
    if p.Do? { DoLeaves(p.steps, attempts, leaf); } else { AllLeaves(p.steps, attempts, leaf); }
    assert forall i | 0 <= i < |p.steps| :: Kids(p)[i] == p.steps[i] && Numbered(p, attempts, i) == attempts;
  }

  lemma RetryByChild(p: Plan, attempts: Attempts, leaf: Leaf)
    requires p.Retry?
    ensures leaf in Leaves(Compile(p, attempts)) <==>
      exists i | 0 <= i < |Kids(p)| :: leaf in Leaves(Compile(Kids(p)[i], Numbered(p, attempts, i)))
  {
    hide Compile, Leaves, LeavesOf, CompileRetry;
    ListLeaves(p, attempts);
    RetryLeaves(p.steps, 1, attempts, leaf);
    assert forall i | 0 <= i < |p.steps| :: Kids(p)[i] == p.steps[i] && Numbered(p, attempts, i) == attempts + [1 + i];
  }

  lemma ListLeaves(p: Plan, attempts: Attempts)
    ensures p.Empty? ==> Leaves(Compile(p, attempts)) == {}
    ensures p.Aggregate? ==> Leaves(Compile(p, attempts)) == LeavesOf(CompileAll(p.steps, attempts))
    ensures p.Do? ==> Leaves(Compile(p, attempts)) == Leaves(CompileDo(p.steps, attempts))
    ensures p.Retry? ==> Leaves(Compile(p, attempts)) == LeavesOf(CompileRetry(p.steps, 1, attempts))
  {
  }

  lemma WrapperLeaves(p: Plan, step: Plan, attempts: Attempts)
    requires (p.Timeout? || p.Try?) && p.step == step
    ensures Leaves(Compile(p, attempts)) == Leaves(Compile(step, attempts))
  {
  }

  lemma PairLeaves(p: Plan, step: Plan, next: Plan, attempts: Attempts)
    requires (p.OnAbort? || p.OnSuccess? || p.OnFailure? || p.Ensure?) && p.step == step && p.next == next
    ensures Leaves(Compile(p, attempts)) == Leaves(Compile(step, attempts)) + Leaves(Compile(next, attempts))
  {
  }

  lemma {:induction false} AllLeaves(steps: seq<Plan>, attempts: Attempts, leaf: Leaf)
    ensures leaf in LeavesOf(CompileAll(steps, attempts)) <==>
      exists i | 0 <= i < |steps| :: leaf in Leaves(Compile(steps[i], attempts))
  {
    hide Compile, Leaves;
    if steps != [] {
      AllLeaves(steps[1..], attempts, leaf);
      assert forall i | 1 <= i < |steps| :: steps[i] == steps[1..][i - 1];
    }
  }

  lemma {:induction false} DoLeaves(steps: seq<Plan>, attempts: Attempts, leaf: Leaf)
    ensures leaf in Leaves(CompileDo(steps, attempts)) <==>
      exists i | 0 <= i < |steps| :: leaf in Leaves(Compile(steps[i], attempts))
  {
    hide Compile;
    if steps != [] {
      DoLeaves(steps[1..], attempts, leaf);
      assert forall i | 1 <= i < |steps| :: steps[i] == steps[1..][i - 1];
    }
  }

  lemma {:induction false} RetryLeaves(steps: seq<Plan>, index: nat, attempts: Attempts, leaf: Leaf)
    ensures leaf in LeavesOf(CompileRetry(steps, index, attempts)) <==>
      exists i | 0 <= i < |steps| :: leaf in Leaves(Compile(steps[i], attempts + [index + i]))
  {
    hide Compile, Leaves;
    if steps != [] {
      RetryLeaves(steps[1..], index + 1, attempts, leaf);
      assert forall i | 1 <= i < |steps| :: steps[i] == steps[1..][i - 1];
    }
  }

  /** Every leaf is compiled with exactly the retry indices on its path. */
  lemma {:induction false} LeafGetsItsAttempts(p: Plan, attempts: Attempts, path: seq<nat>)
    requires LeafAt(p, path).Some?
    ensures var leaf := LeafAt(p, path).value; (leaf.0, attempts + leaf.1) in Leaves(Compile(p, attempts))
    decreases |path|
  {
    var leaf := LeafAt(p, path).value;
    if path == [] {
      assert attempts + [] == attempts;
    } else {
      var i := path[0];
      var below := LeafAt(Kids(p)[i], path[1..]).value;
      LeafGetsItsAttempts(Kids(p)[i], Numbered(p, attempts, i), path[1..]);
      assert Numbered(p, attempts, i) + below.1 == attempts + leaf.1;
      LeavesByChild(p, attempts, (leaf.0, attempts + leaf.1));
    }
  }

  /** And a compiled plan has no other leaves. */
  lemma {:induction false} AttemptsComeFromPaths(p: Plan, attempts: Attempts, leaf: Leaf) returns (path: seq<nat>)
    requires leaf in Leaves(Compile(p, attempts))
    ensures LeafAt(p, path).Some? && leaf == (LeafAt(p, path).value.0, attempts + LeafAt(p, path).value.1)
    decreases p
  {
    hide Compile, Leaves, LeafAt;
    if p.Action? {
      path := [];
      ActionLeaf(p.id, attempts);
    } else {
      LeavesByChild(p, attempts, leaf);
      var i :| 0 <= i < |Kids(p)| && leaf in Leaves(Compile(Kids(p)[i], Numbered(p, attempts, i)));
      var rest := AttemptsComeFromPaths(Kids(p)[i], Numbered(p, attempts, i), leaf);
      path := [i] + rest;
      LeafAtChild(p, attempts, i, rest);
    }
  }

  lemma ActionLeaf(id: PlanId, attempts: Attempts)
    ensures Leaves(Compile(Action(id), attempts)) == {(id, attempts)} && LeafAt(Action(id), []) == Some((id, []))
    ensures attempts + [] == attempts
  {
  }

  lemma LeafAtChild(p: Plan, attempts: Attempts, i: nat, rest: seq<nat>)
    requires i < |Kids(p)| && LeafAt(Kids(p)[i], rest).Some?
    ensures
      var whole, below := LeafAt(p, [i] + rest), LeafAt(Kids(p)[i], rest).value;
      whole.Some? && whole.value.0 == below.0 && attempts + whole.value.1 == Numbered(p, attempts, i) + below.1
  {
    assert ([i] + rest)[1..] == rest;
    var below := LeafAt(Kids(p)[i], rest).value;
    assert attempts + ([i + 1] + below.1) == attempts + [i + 1] + below.1;
  }

  // ---- Outside the conditions ------------------------------------------------

  /** With a signal from outside, `Succeeded` may dereference a nil step: a `try`
      that was interrupted returned the interrupt and still claims success. */
  lemma InterruptedTryPanics(o: Oracle)
    requires o.actions("a") == [Aborted]
    ensures
      var p := OnSuccess(Try(Action("a")), Action("b"));
      var run := RunStep(Compile(p, []), o);
      WellFormed(p) && !Quiet(p, o)
      && run.Finished? && run.err == Some(Interrupted) && Succeeded(run.state).None?
  {
    var try := Try(Action("a"));
    assert !Quiet(try, o);
    assert RunStep(TryF(ActionsF("a", [])), o).err == Some(Interrupted);
  }

  /** So may an aggregate that was signalled after its members had finished. */
  lemma SignalledAggregatePanics(o: Oracle)
    requires o.actions("a") == [Exited(0)] && o.signalled("g")
    ensures
      var p := Do([Aggregate("g", [Action("a")]), Action("b")]);
      var run := RunStep(Compile(p, []), o);
      WellFormed(p) && !Quiet(p, o) && run.Finished? && run.err.Some? && Succeeded(run.state).None?
  {
    assert o.actions("a")[1..] == [];
    var g := AggregateF("g", [ActionsF("a", [])]);
    assert Compile(Aggregate("g", [Action("a")]), []) == g by {
      assert CompileAll([Action("a")], []) == [Compile(Action("a"), [])] + CompileAll([], []);
    }
    var run, leaf := RunStep(g, o), RunStep(ActionsF("a", []), o);
    assert RunAll([ActionsF("a", [])], o) == [leaf];
    LeafMeaning([Exited(0)]);
    assert leaf.state == ActionsS(true);
    assert RunStates([leaf]) == [ActionsS(true)];
    assert run.err == Some(Interrupted) && run.state == AggregateS([ActionsS(true)]);
    var p := Do([Aggregate("g", [Action("a")]), Action("b")]);
    assert !Quiet(p.steps[0], o);
    assert Compile(p, []) == OnSuccessF(g, CompileDo(p.steps[1..], []));
    assert AllSucceeded([ActionsS(true)]) == Some(true) by { assert [ActionsS(true)][1..] == []; }
  }

  /** A retry without attempts finishes, but has no last attempt to ask. */
  lemma EmptyRetryPanics(o: Oracle)
    ensures
      var run := RunStep(Compile(Retry([]), []), o);
      run.Finished? && run.err.None? && Succeeded(run.state).None?
  {
  }

  /** With a duration that does not parse, a step can both error and claim success. */
  lemma UnparsedDurationLies(o: Oracle, text: string)
    ensures
      var run := RunStep(Compile(Timeout("t", Try(Action("a")), Unparsed(text)), []), o);
      run.Finished? && run.err.Some? && Succeeded(run.state) == Some(true)
  {
    var f := TimeoutF("t", TryF(ActionsF("a", [])), Unparsed(text));
    assert Initial(f) == TimeoutS(TryS(ActionsS(false)), false);
    assert Succeeded(TryS(ActionsS(false))) == Some(true);
  }

  /** An interrupted `get` returns the resource package's own "interrupted" error,
      which is not the bare interrupt: a retry goes on to the next attempt. */
  lemma InterruptedGetIsRetried(o: Oracle)
    requires o.actions("get1") == [Failed(Other(INTERRUPTED_TEXT))] && o.actions("get2") == [Exited(0)]
    ensures
      var p := Retry([Action("get1"), Action("get2")]);
      Mentions(Other(INTERRUPTED_TEXT)) && Eval(p, [], o) == Outcome(None, true, [Ran("get1", [1]), Ran("get2", [2])])
  {
    assert o.actions("get2")[1..] == [];
    var steps := [Action("get1"), Action("get2")];
    assert steps[1..] == [Action("get2")];
    LeafMeaning([Exited(0)]);
    assert Eval(steps[0], [1], o) == Outcome(Some(Other(INTERRUPTED_TEXT)), false, [Ran("get1", [1])]);
    assert Eval(steps[1], [2], o) == Outcome(None, true, [Ran("get2", [2])]);
    assert [] + [1] == [1] && [] + [2] == [2];
    assert EvalRetry(steps[1..], 2, [], o) == Eval(steps[1], [2], o);
    assert EvalRetry(steps, 1, [], o) == Outcome(None, true, [Ran("get1", [1])] + [Ran("get2", [2])]);
  }
}
