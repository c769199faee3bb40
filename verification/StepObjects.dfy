/**
 * The step objects themselves: `BuildStepFactory` loops over the plan, `Using`
 * allocates the objects and `Run` updates their fields in place. Each method is
 * proved against its counterpart in `StepMachine`, so `CompilerCorrect` is a
 * statement about these objects.
 */
module StepObjects {
  import opened Options
  import opened Plans
  import opened StepMachine

  // ---- engine/build_step.go --------------------------------------------------

  method BuildStepFactory(p: Plan, attempts: Attempts) returns (f: Factory)
    ensures f == Compile(p, attempts)
    decreases p
  {
    match p
    case Action(id) => f := ActionsF(id, attempts);
    case Empty => f := IdentityF;
    case Aggregate(id, steps) =>
      var fs := BuildAggregateStep(p, attempts);
      f := AggregateF(id, fs);
    case Do(steps) => f := BuildDoStep(p, attempts);
    case Retry(steps) =>
      var fs := BuildRetryStep(p, attempts);
      f := RetryF(fs);
    case Timeout(id, step, duration) =>
      var first := BuildStepFactory(step, attempts);
      f := TimeoutF(id, first, duration);
    case Try(step) =>
      var first := BuildStepFactory(step, attempts);
      f := TryF(first);
    case OnAbort(step, next) =>
      var first := BuildStepFactory(step, attempts);
      var second := BuildStepFactory(next, attempts);
      f := OnAbortF(first, second);
    case OnSuccess(step, next) =>
      var first := BuildStepFactory(step, attempts);
      var second := BuildStepFactory(next, attempts);
      f := OnSuccessF(first, second);
    case OnFailure(step, next) =>
      var first := BuildStepFactory(step, attempts);
      var second := BuildStepFactory(next, attempts);
      f := OnFailureF(first, second);
    case Ensure(step, next) =>
      var first := BuildStepFactory(step, attempts);
      var second := BuildStepFactory(next, attempts);
      f := EnsureF(first, second);
  }

  method BuildAggregateStep(p: Plan, attempts: Attempts) returns (fs: seq<Factory>)
    requires p.Aggregate?
    ensures fs == CompileAll(p.steps, attempts)
    decreases p, 0
  {
    hide Compile;
    fs := [];
    for i := 0 to |p.steps|
      invariant fs + CompileAll(p.steps[i..], attempts) == CompileAll(p.steps, attempts)
    {
      assert p.steps[i..][0] == p.steps[i] && p.steps[i..][1..] == p.steps[i + 1..];
      var f := BuildStepFactory(p.steps[i], attempts);
      fs := fs + [f];
    }
  }

  /** The fold runs backwards, wrapping the step built so far. */
  method BuildDoStep(p: Plan, attempts: Attempts) returns (step: Factory)
    requires p.Do?
    ensures step == CompileDo(p.steps, attempts)
    decreases p, 0
  {
    hide Compile;
    step := IdentityF;
    for i := |p.steps| downto 0
      invariant step == CompileDo(p.steps[i..], attempts)
    {
      var previous := BuildStepFactory(p.steps[i], attempts);
      step := OnSuccessF(previous, step);
    }
  }

  method BuildRetryStep(p: Plan, attempts: Attempts) returns (fs: seq<Factory>)
    requires p.Retry?
    ensures fs == CompileRetry(p.steps, 1, attempts)
    decreases p, 0
  {
    hide Compile;
    fs := [];
    for i := 0 to |p.steps|
      invariant fs == CompileRetry(p.steps, 1, attempts)[..i]
    {
      CompileRetryAt(p.steps, 1, attempts, i);
      var f := BuildStepFactory(p.steps[i], attempts + [i + 1]);
      fs := fs + [f];
    }
  }

  lemma {:induction false} CompileRetryAt(steps: seq<Plan>, index: nat, attempts: Attempts, i: nat)
    requires i < |steps|
    ensures CompileRetry(steps, index, attempts)[i] == Compile(steps[i], attempts + [index + i])
  {
    if i > 0 {
      CompileRetryAt(steps[1..], index + 1, attempts, i - 1);
    }
  }

  // ---- exec/ -----------------------------------------------------------------

  /** The sub-steps `Using` builds at once; hooks are only built when they run. */
  function Parts(f: Factory): (parts: seq<Factory>)
    ensures forall i | 0 <= i < |parts| :: parts[i] < f
  {
    match f
    case IdentityF => []
    case ActionsF(_, _) => []
    case AggregateF(_, fs) => fs
    case RetryF(fs) => fs
    case TimeoutF(_, first, _) => [first]
    case TryF(first) => [first]
    case OnAbortF(first, _) => [first]
    case OnFailureF(first, _) => [first]
    case OnSuccessF(first, _) => [first]
    case EnsureF(first, _) => [first]
  }

  function Hook(f: Factory): Option<Factory>
  {
    match f
    case OnSuccessF(_, second) => Some(second)
    case EnsureF(_, second) => Some(second)
    case _ => None
  }

  ghost function ViewOf(f: Factory, parts: seq<StepState>, second: Option<StepState>, last: Option<StepState>,
                        succeeded: bool, timedOut: bool): StepState
    requires |parts| == |Parts(f)|
  {
    match f
    case IdentityF => IdentityS
    case ActionsF(_, _) => ActionsS(succeeded)
    case AggregateF(_, _) => AggregateS(parts)
    case RetryF(_) => RetryS(parts, last)
    case TimeoutF(_, _, _) => TimeoutS(parts[0], timedOut)
    case TryF(_) => TryS(parts[0])
    case OnAbortF(_, _) => HookS(parts[0])
    case OnFailureF(_, _) => HookS(parts[0])
    case OnSuccessF(_, _) => PairS(parts[0], second)
    case EnsureF(_, _) => PairS(parts[0], second)
  }

  /** One class stands for every kind of step. `subs` are the sub-steps built by
      `Using` (the one `step` or `runStep` of a wrapper, or all members of an
      aggregate or a retry), `second` is the lazily built `success` or `ensure`,
      `last` is `LastAttempt`. */
  class Step {
    const factory: Factory
    var subs: seq<Step>
    var second: Step?
    var last: Step?
    var succeeded: bool
    var timedOut: bool
    ghost var repr: set<object>
    ghost var views: seq<StepState>
    ghost var view: StepState

    /** The objects form a tree, and `view` is that tree as a value. */
    ghost predicate Valid()
      reads this, repr
      decreases factory
    {
      && this in repr
      && |subs| == |Parts(factory)| == |views|
      && (forall i | 0 <= i < |subs| ::
            && subs[i] in repr && subs[i].repr <= repr && this !in subs[i].repr
            && subs[i].factory == Parts(factory)[i]
            && subs[i].Valid()
            && subs[i].view == views[i])
      && (forall i, j | 0 <= i < j < |subs| :: subs[i].repr !! subs[j].repr)
      && (last != null ==> last in subs)
      && (second != null ==>
            && Hook(factory) == Some(second.factory)
            && second in repr && second.repr <= repr && this !in second.repr
            && (forall i | 0 <= i < |subs| :: subs[i].repr !! second.repr)
            && second.Valid())
      && view == ViewOf(factory, views,
                        if second == null then None else Some(second.view),
                        if last == null then None else Some(last.view), succeeded, timedOut)
    }

    constructor (factory: Factory, subs: seq<Step>, ghost views: seq<StepState>, ghost below: set<object>)
      requires Forest(subs, Parts(factory), views, below)
      ensures Valid() && this.factory == factory && repr == {this} + below
      ensures view == ViewOf(factory, views, None, None, false, false)
    {
      this.factory, this.subs := factory, subs;
      second, last, succeeded, timedOut := null, null, false, false;
      repr := {this} + below;
      this.views := views;
      view := ViewOf(factory, views, None, None, false, false);
    }

    static method Using(f: Factory) returns (s: Step)
      ensures s.Valid() && fresh(s.repr) && s.factory == f
      ensures s.view == Initial(f)
      decreases f, 1
    {
      ghost var below;
      var subs;
      subs, below := UsingAll(f);
      s := new Step(f, subs, InitialAll(Parts(f)), below);
    }

    static method UsingAll(f: Factory) returns (subs: seq<Step>, ghost below: set<object>)
      ensures Forest(subs, Parts(f), InitialAll(Parts(f)), below)
      ensures fresh(below)
      decreases f, 0
    {
      hide RunStep, Initial, Forest;
      var parts := Parts(f);
      subs, below := [], {};
      NoTrees();
      for i := 0 to |parts|
        invariant |subs| == i
        invariant Forest(subs, parts[..i], InitialAll(parts[..i]), below)
        invariant fresh(below)
      {
        var sub := Using(parts[i]);
        assert Forest(subs, parts[..i], InitialAll(parts[..i]), below);
        assert below !! sub.repr;
        Grow(subs, parts[..i], InitialAll(parts[..i]), below, sub);
        assert parts[..i] + [parts[i]] == parts[..i + 1];
        InitialAllAppend(parts[..i], parts[i]);
        subs, below := subs + [sub], below + sub.repr;
      }
      assert parts[..|parts|] == parts;
    }

    // ---- Succeeded ----

    method Succeeded() returns (ok: bool)
      requires Valid() && StepMachine.Succeeded(view).Some?
      ensures Some(ok) == StepMachine.Succeeded(view)
      decreases factory
    {
      match factory
      case IdentityF => ok := true;
      case ActionsF(_, _) => ok := succeeded;
      case AggregateF(_, _) => ok := MembersSucceeded();
      case RetryF(_) => ok := last.Succeeded();
      case TimeoutF(_, _, _) =>
        if timedOut {
          ok := false;
        } else {
          ok := subs[0].Succeeded();
        }
      case TryF(_) => ok := true;
      case OnAbortF(_, _) => ok := subs[0].Succeeded();
      case OnFailureF(_, _) => ok := subs[0].Succeeded();
      case OnSuccessF(_, _) => ok := PairSucceeded();
      case EnsureF(_, _) => ok := PairSucceeded();
    }

    method MembersSucceeded() returns (ok: bool)
      requires Valid() && factory.AggregateF? && StepMachine.Succeeded(view).Some?
      ensures Some(ok) == StepMachine.Succeeded(view)
      decreases factory, 0
    {
      ok := true;
      for i := 0 to |subs|
        invariant AllSucceeded(views[i..]).Some?
        invariant AllSucceeded(views) == Some(ok && AllSucceeded(views[i..]).value)
      {
        assert views[i..][0] == views[i] && views[i..][1..] == views[i + 1..];
        var member := subs[i].Succeeded();
        if !member {
          ok := false;
        }
      }
    }

    method PairSucceeded() returns (ok: bool)
      requires Valid() && (factory.OnSuccessF? || factory.EnsureF?) && StepMachine.Succeeded(view).Some?
      ensures Some(ok) == StepMachine.Succeeded(view)
      decreases factory, 0
    {
      ok := subs[0].Succeeded();
      if ok {
        ok := second.Succeeded();
      }
    }

    // ---- Run ----

    lemma SubsForest()
      requires Valid()
      ensures this in repr && |subs| == |Parts(factory)| == |views| && (last != null ==> last in subs)
      ensures Forest(subs, Parts(factory), views, repr - {this})
    {
    }

    /** Ghost bookkeeping after a field was set: `vs` are the sub-steps' views, all of them within `below`. */
    ghost method Settle(vs: seq<StepState>, below: set<object>)
      requires Forest(subs, Parts(factory), vs, below) && this !in below
      requires last != null ==> last in subs
      requires second != null ==>
        && Hook(factory) == Some(second.factory) && second in below && second.repr <= below && second.Valid()
        && forall i | 0 <= i < |subs| :: subs[i].repr !! second.repr
      modifies this`repr, this`views, this`view
      ensures Valid() && repr == {this} + below
      ensures view == ViewOf(factory, vs, if second == null then None else Some(second.view),
                             if last == null then None else Some(last.view), succeeded, timedOut)
    {
      repr, views := {this} + below, vs;
      view := ViewOf(factory, vs, if second == null then None else Some(second.view),
                     if last == null then None else Some(last.view), succeeded, timedOut);
    }

    /** ActionsStep.Run: the loop over the actions. */
    method RunActions(o: Oracle) returns (err: Option<Error>)
      requires Valid() && factory.ActionsF? && view == Initial(factory)
      modifies this`succeeded, this`repr, this`views, this`view
      ensures Valid() && repr == old(repr)
      ensures (err, succeeded) == LeafResult(o.actions(factory.id)) && view == ActionsS(succeeded)
    {
      var results := o.actions(factory.id);
      var allZero := true;
      err := None;
      var i := 0;
      while i < |results| && err.None?
        invariant 0 <= i <= |results|
        invariant err.None? ==>
          LeafResult(results) == (LeafResult(results[i..]).0, allZero && LeafResult(results[i..]).1)
        invariant err.Some? ==> LeafResult(results) == (err, false)
        invariant !succeeded
      {
        assert results[i..][0] == results[i] && results[i..][1..] == results[i + 1..];
        match results[i] {
          case Aborted => err := Some(Interrupted);
          case Failed(e) => err := Some(e);
          case Exited(status) => if status != 0 { allZero := false; }
        }
        i := i + 1;
      }
      if err.None? {
        succeeded := allZero;
      }
      Settle(views, repr - {this});
    }

    /** Runs one sub-step; the others keep their state. */
    static method RunMember(subs: seq<Step>, ghost fs: seq<Factory>, ghost vs: seq<StepState>, ghost below: set<object>,
                            i: nat, o: Oracle)
      returns (err: Option<Error>, trace: seq<Event>, ghost vs': seq<StepState>, ghost below': set<object>)
      requires |subs| == |fs| == |vs| && i < |subs| && Forest(subs, fs, vs, below)
      requires vs[i] == Initial(fs[i]) && RunStep(fs[i], o).Finished?
      modifies below
      ensures |vs'| == |vs| && vs' == vs[i := vs'[i]]
      ensures Finished(err, vs'[i], trace) == RunStep(fs[i], o)
      ensures below <= below' && fresh(below' - below) && Forest(subs, fs, vs', below')
      decreases fs[i], 2
    {
      err, trace := subs[i].Run(o);
      below' := below + subs[i].repr;
      vs' := vs[i := subs[i].view];
    }

    static method MemberSucceeded(subs: seq<Step>, ghost fs: seq<Factory>, ghost vs: seq<StepState>,
                                  ghost below: set<object>, i: nat)
      returns (ok: bool)
      requires |subs| == |fs| == |vs| && i < |subs| && Forest(subs, fs, vs, below)
      requires StepMachine.Succeeded(vs[i]).Some?
      ensures Some(ok) == StepMachine.Succeeded(vs[i])
    {
      ok := subs[i].Succeeded();
    }

    lemma InitialViews()
      requires Valid() && view == Initial(factory) && (factory.AggregateF? || factory.RetryF?)
      ensures views == InitialAll(Parts(factory)) && second == null
    {
    }

    method Run(o: Oracle) returns (err: Option<Error>, trace: seq<Event>)
      requires Valid() && view == Initial(factory) && RunStep(factory, o).Finished?
      modifies repr
      ensures Valid() && fresh(repr - old(repr))
      ensures Finished(err, view, trace) == RunStep(factory, o)
      decreases factory, 1
    {
      match factory
      case IdentityF => err, trace := None, [];
      case ActionsF(id, attempts) =>
        err := RunActions(o);
        trace := [Ran(id, attempts)];
      case AggregateF(_, _) => err, trace := RunAggregate(o);
      case RetryF(_) => err, trace := RunAttempts(o);
      case TimeoutF(_, _, _) => err, trace := RunTimeout(o);
      case TryF(_) => err, trace := RunTry(o);
      case OnAbortF(_, _) => err, trace := RunOnAbort(o);
      case OnFailureF(_, _) => err, trace := RunOnFailure(o);
      case OnSuccessF(_, _) => err, trace := RunOnSuccess(o);
      case EnsureF(_, _) => err, trace := RunEnsure(o);
    }

    method RunFirst(o: Oracle) returns (err: Option<Error>, trace: seq<Event>)
      requires Valid() && |subs| == 1 && second == null
      requires views[0] == Initial(Parts(factory)[0]) && RunStep(Parts(factory)[0], o).Finished?
      modifies repr
      ensures Valid() && fresh(repr - old(repr)) && subs == old(subs) && second == null
      ensures Finished(err, views[0], trace) == RunStep(Parts(factory)[0], o)
      ensures succeeded == old(succeeded) && timedOut == old(timedOut)
      decreases factory, 0, 0
    {
      ghost var vs, below;
      err, trace, vs, below := RunMember(subs, Parts(factory), views, repr - {this}, 0, o);
      Settle(vs, below);
    }

    /** A hook that is run and forgotten. */
    static method RunHook(f: Factory, o: Oracle) returns (err: Option<Error>, trace: seq<Event>)
      requires RunStep(f, o).Finished?
      ensures RunStep(f, o).err == err && RunStep(f, o).trace == trace
      decreases f, 2
    {
      var hook := Using(f);
      err, trace := hook.Run(o);
    }

    /** A hook that is kept in `second`. */
    method RunSecond(o: Oracle) returns (err: Option<Error>, trace: seq<Event>)
      requires Valid() && second == null && Hook(factory).Some? && RunStep(Hook(factory).value, o).Finished?
      modifies this
      ensures Valid() && fresh(repr - old(repr)) && second != null
      ensures subs == old(subs) && views == old(views)
      ensures Finished(err, second.view, trace) == RunStep(Hook(factory).value, o)
      decreases factory, 0, 0
    {
      hide RunStep, Initial, Forest, Valid;
      ghost var below := repr - {this};
      SubsForest();
      var hook := Using(Hook(factory).value);
      err, trace := hook.Run(o);
      assert Forest(subs, Parts(factory), views, below) && below !! hook.repr;
      Widen(subs, Parts(factory), views, below, hook.repr);
      second := hook;
      Settle(views, below + hook.repr);
    }

    method RunTry(o: Oracle) returns (err: Option<Error>, trace: seq<Event>)
      requires factory.TryF? && Valid() && view == Initial(factory) && RunStep(factory, o).Finished?
      modifies repr
      ensures Valid() && fresh(repr - old(repr))
      ensures Finished(err, view, trace) == RunStep(factory, o)
      decreases factory, 0
    {
      err, trace := RunFirst(o);
      if err != Some(Interrupted) {
        err := None;
      }
    }

    method RunTimeout(o: Oracle) returns (err: Option<Error>, trace: seq<Event>)
      requires factory.TimeoutF? && Valid() && view == Initial(factory) && RunStep(factory, o).Finished?
      modifies repr
      ensures Valid() && fresh(repr - old(repr))
      ensures Finished(err, view, trace) == RunStep(factory, o)
      decreases factory, 0
    {
      if factory.duration.Unparsed? {
        return Some(Other(factory.duration.text)), [];
      }
      ghost var vs, below;
      err, trace, vs, below := RunMember(subs, Parts(factory), views, repr - {this}, 0, o);
      timedOut := o.fires(factory.id);
      Settle(vs, below);
      if timedOut {
        err := None;
      }
    }

    method RunOnFailure(o: Oracle) returns (err: Option<Error>, trace: seq<Event>)
      requires factory.OnFailureF? && Valid() && view == Initial(factory) && RunStep(factory, o).Finished?
      modifies repr
      ensures Valid() && fresh(repr - old(repr))
      ensures Finished(err, view, trace) == RunStep(factory, o)
      decreases factory, 0
    {
      err, trace := RunFirst(o);
      if err.Some? {
        return;
      }
      var ok := subs[0].Succeeded();
      if !ok {
        var more;
        err, more := RunHook(factory.second, o);
        trace := trace + more;
      }
    }

    method RunOnAbort(o: Oracle) returns (err: Option<Error>, trace: seq<Event>)
      requires factory.OnAbortF? && Valid() && view == Initial(factory) && RunStep(factory, o).Finished?
      modifies repr
      ensures Valid() && fresh(repr - old(repr))
      ensures Finished(err, view, trace) == RunStep(factory, o)
      decreases factory, 0
    {
      err, trace := RunFirst(o);
      if err.None? {
        return;
      }
      var errors := Append([], err);
      if Mentions(err.value) {
        var hookErr, more := RunHook(factory.second, o);
        errors := Append(errors, hookErr);
        trace := trace + more;
      }
      err := Some(Multi(errors));
    }

    /** Before a pair has run, its first step is as built and there is no second. */
    lemma PairStarts()
      requires (factory.OnSuccessF? || factory.EnsureF?) && Valid() && view == Initial(factory)
      ensures |subs| == 1 && |views| == 1 && second == null && views[0] == Initial(Parts(factory)[0])
    {
    }

    lemma PairFacts()
      requires (factory.OnSuccessF? || factory.EnsureF?) && Valid()
      ensures this in repr && |subs| == 1 && |views| == 1
      ensures subs[0].Valid() && subs[0].factory == factory.first && subs[0].view == views[0]
      ensures view == PairS(views[0], if second == null then None else Some(second.view))
    {
    }

    method RunOnSuccess(o: Oracle) returns (err: Option<Error>, trace: seq<Event>)
      requires factory.OnSuccessF? && Valid() && view == Initial(factory) && RunStep(factory, o).Finished?
      modifies repr
      ensures Valid() && fresh(repr - old(repr))
      ensures Finished(err, view, trace) == RunStep(factory, o)
      decreases factory, 0
    {
      hide Valid, Initial;
      PairStarts();
      PairFacts();
      err, trace := RunFirst(o);
      PairFacts();
      if err.Some? {
        return;
      }
      var ok := subs[0].Succeeded();
      if !ok {
        return;
      }
      var more;
      err, more := RunSecond(o);
      PairFacts();
      trace := trace + more;
    }

    method RunEnsure(o: Oracle) returns (err: Option<Error>, trace: seq<Event>)
      requires factory.EnsureF? && Valid() && view == Initial(factory) && RunStep(factory, o).Finished?
      modifies repr
      ensures Valid() && fresh(repr - old(repr))
      ensures Finished(err, view, trace) == RunStep(factory, o)
      decreases factory, 0
    {
      hide Valid, Initial;
      PairStarts();
      PairFacts();
      err, trace := RunFirst(o);
      PairFacts();
      var errors := Append([], err);
      var hookErr, more := RunSecond(o);
      PairFacts();
      trace := trace + more;
      errors := Append(errors, hookErr);
      err := if err.None? && hookErr.None? then None else Some(Multi(errors));
    }

    method RunAggregate(o: Oracle) returns (err: Option<Error>, trace: seq<Event>)
      requires factory.AggregateF? && Valid() && view == Initial(factory) && RunStep(factory, o).Finished?
      modifies repr
      ensures Valid() && fresh(repr - old(repr))
      ensures Finished(err, view, trace) == RunStep(factory, o)
      decreases factory, 0, 1
    {
      hide Initial, Forest, Valid;
      SubsForest();
      InitialViews();
      ghost var vs, below;
      var errors, traces;
      errors, traces, vs, below := RunMembers(factory, Parts(factory), subs, views, repr - {this}, o);
      Settle(vs, below);
      trace := [Par(traces)];
      err := if o.signalled(factory.id) then Some(Interrupted)
             else if errors != [] then Some(Sources(errors)) else None;
    }

    static method RunMembers(ghost f: Factory, ghost fs: seq<Factory>, subs: seq<Step>, ghost vs: seq<StepState>,
                             ghost below: set<object>, o: Oracle)
      returns (errors: seq<Error>, traces: seq<seq<Event>>, ghost vs': seq<StepState>, ghost below': set<object>)
      requires forall i | 0 <= i < |fs| :: fs[i] < f && RunAll(fs, o)[i].Finished?
      requires |subs| == |fs| && vs == InitialAll(fs) && Forest(subs, fs, vs, below)
      modifies below
      ensures below <= below' && fresh(below' - below) && Forest(subs, fs, vs', below')
      ensures var rs := RunAll(fs, o); vs' == RunStates(rs) && errors == RunErrors(rs) && traces == RunTraces(rs)
      decreases f, 0, 0
    {
      hide RunStep, RunAll, RunStates, RunErrors, RunTraces, Initial, Forest;
      ghost var rs := RunAll(fs, o);
      vs', below' := vs, below;
      forall k | 0 <= k < |fs| { InitialAllAt(fs, k); }
      forall k | 0 <= k < |fs| { RunAllAt(fs, o, k); }
      errors, traces := [], [];
      assert rs[0..] == rs;
      for i := 0 to |subs|
        invariant below <= below' && fresh(below' - below) && |vs'| == |fs| && Forest(subs, fs, vs', below')
        invariant forall k | 0 <= k < |fs| :: vs'[k] == if k < i then rs[k].state else Initial(fs[k])
        invariant RunErrors(rs) == errors + RunErrors(rs[i..])
        invariant RunTraces(rs) == traces + RunTraces(rs[i..])
      {
        SuffixUnfolds(rs, i);
        var e, t;
        e, t, vs', below' := RunMember(subs, fs, vs', below', i, o);
        traces := traces + [t];
        if e.Some? {
          errors := errors + [e.value];
        }
      }
      RunStatesAre(rs, vs');
      SuffixEnds();
    }

    method RunAttempts(o: Oracle) returns (err: Option<Error>, trace: seq<Event>)
      requires factory.RetryF? && Valid() && view == Initial(factory) && RunStep(factory, o).Finished?
      modifies repr
      ensures Valid() && fresh(repr - old(repr))
      ensures Finished(err, view, trace) == RunStep(factory, o)
      decreases factory, 0, 1
    {
      hide Initial, Forest, Valid;
      SubsForest();
      InitialViews();
      ghost var vs, below;
      var lastIndex;
      err, trace, lastIndex, vs, below := Attempt(factory, Parts(factory), subs, views, repr - {this}, o);
      last := if lastIndex.None? then null else subs[lastIndex.value];
      if lastIndex.Some? { ForestView(subs, Parts(factory), vs, below, lastIndex.value); }
      Settle(vs, below);
    }

    /** The retry loop. */
    static method Attempt(ghost f: Factory, ghost fs: seq<Factory>, subs: seq<Step>, ghost vs: seq<StepState>,
                          ghost below: set<object>, o: Oracle)
      returns (err: Option<Error>, trace: seq<Event>, last: Option<nat>,
               ghost vs': seq<StepState>, ghost below': set<object>)
      requires forall i | 0 <= i < |fs| :: fs[i] < f
      requires |subs| == |fs| && vs == InitialAll(fs) && Forest(subs, fs, vs, below)
      requires RunRetry([], fs, None, None, o).Finished?
      modifies below
      ensures below <= below' && fresh(below' - below) && |vs'| == |subs| && Forest(subs, fs, vs', below')
      ensures last.Some? ==> last.value < |subs|
      ensures RunRetry([], fs, None, None, o)
           == Finished(err, RetryS(vs', LastOf(vs', last)), trace)
      decreases f, 0, 0
    {
      hide RunStep, Initial, RunRetry, Forest, GoesOn;
      vs', below' := vs, below;
      forall k | 0 <= k < |fs| { InitialAllAt(fs, k); }
      err, trace, last := None, [], None;
      var stop := false;
      var i := 0;
      assert vs'[..0] == [] && fs[0..] == fs;
      ghost var whole := RunRetry([], fs, None, None, o);
      GoesOnFromStart(vs', fs, o);
      while i < |subs| && !stop
        invariant 0 <= i <= |subs|
        invariant below <= below' && fresh(below' - below) && |vs'| == |fs| && Forest(subs, fs, vs', below')
        invariant forall k | i <= k < |fs| :: vs'[k] == Initial(fs[k])
        invariant last.Some? ==> last.value < |subs|
        invariant !stop ==> GoesOn(whole, vs', fs, i, err, LastOf(vs', last), trace, o)
        invariant stop ==> last.Some? && whole == Finished(err, RetryS(vs', LastOf(vs', last)), trace)
      {
        RetryAdvances(whole, vs', fs, i, err, LastOf(vs', last), trace, o);
        var t;
        err, t, vs', below' := RunMember(subs, fs, vs', below', i, o);
        trace, last := trace + t, Some(i);
        if err == Some(Interrupted) {
          stop := true;
        } else if err.None? {
          stop := MemberSucceeded(subs, fs, vs', below', i);
        }
        i := i + 1;
      }
      if !stop { GoesOnToEnd(whole, vs', fs, err, LastOf(vs', last), trace, o); }
    }
  }

  /** The whole retry is what has run so far and what the loop still does. */
  ghost predicate GoesOn(whole: StepMachine.Run, vs: seq<StepState>, fs: seq<Factory>, i: nat, err: Option<Error>,
                         last: Option<StepState>, trace: seq<Event>, o: Oracle)
  {
    && i <= |fs| == |vs|
    && var rest := RunRetry(vs[..i], fs[i..], err, last, o);
       rest.Finished? && whole == rest.(trace := trace + rest.trace)
  }

  lemma GoesOnFromStart(vs: seq<StepState>, fs: seq<Factory>, o: Oracle)
    requires |fs| == |vs| && RunRetry([], fs, None, None, o).Finished?
    ensures GoesOn(RunRetry([], fs, None, None, o), vs, fs, 0, None, None, [], o)
  {
    hide RunRetry;
    var whole := RunRetry([], fs, None, None, o);
    assert vs[..0] == [] && fs[0..] == fs && [] + whole.trace == whole.trace;
  }

  lemma GoesOnToEnd(whole: StepMachine.Run, vs: seq<StepState>, fs: seq<Factory>, err: Option<Error>,
                    last: Option<StepState>, trace: seq<Event>, o: Oracle)
    requires GoesOn(whole, vs, fs, |fs|, err, last, trace, o)
    ensures whole == Finished(err, RetryS(vs, last), trace)
  {
    hide RunRetry;
    assert vs[..|fs|] == vs && fs[|fs|..] == [] && trace + [] == trace;
    RetryEnds(vs, err, last, o);
  }

  lemma RetryAdvances(whole: StepMachine.Run, vs: seq<StepState>, fs: seq<Factory>, i: nat, err: Option<Error>,
                      last: Option<StepState>, trace: seq<Event>, o: Oracle)
    requires GoesOn(whole, vs, fs, i, err, last, trace, o) && i < |fs|
    requires forall k | i <= k < |fs| :: vs[k] == Initial(fs[k])
    ensures RunStep(fs[i], o).Finished?
    ensures
      var r := RunStep(fs[i], o);
      var vs' := vs[i := r.state];
      && (r.err.None? ==> StepMachine.Succeeded(r.state).Some?)
      && if r.err == Some(Interrupted) || (r.err.None? && StepMachine.Succeeded(r.state) == Some(true))
         then whole == Finished(r.err, RetryS(vs', Some(r.state)), trace + r.trace)
         else GoesOn(whole, vs', fs, i + 1, r.err, Some(r.state), trace + r.trace, o)
  {
    hide RunRetry, RunStep, Initial;
    RetryUnfolds(vs, fs, i, err, last, o);
    var r := RunStep(fs[i], o);
    var rest := RunRetry(vs[i := r.state][..i + 1], fs[i + 1..], r.err, Some(r.state), o);
    if rest.Finished? { assert trace + (r.trace + rest.trace) == (trace + r.trace) + rest.trace; }
  }

  ghost function LastOf(vs: seq<StepState>, last: Option<nat>): Option<StepState>
    requires last.Some? ==> last.value < |vs|
  {
    if last.None? then None else Some(vs[last.value])
  }

  lemma RetryEnds(vs: seq<StepState>, err: Option<Error>, last: Option<StepState>, o: Oracle)
    ensures RunRetry(vs, [], err, last, o) == Finished(err, RetryS(vs, last), [])
  {
  }

  lemma {:induction false} RunAllAt(fs: seq<Factory>, o: Oracle, i: nat)
    requires i < |fs|
    ensures RunAll(fs, o)[i] == RunStep(fs[i], o)
  {
    if i > 0 {
      RunAllAt(fs[1..], o, i - 1);
    }
  }

  lemma SuffixUnfolds(rs: seq<StepMachine.Run>, i: nat)
    requires i < |rs| && forall k | 0 <= k < |rs| :: rs[k].Finished?
    ensures RunErrors(rs[i..]) == (if rs[i].err.Some? then [rs[i].err.value] else []) + RunErrors(rs[i + 1..])
    ensures RunTraces(rs[i..]) == [rs[i].trace] + RunTraces(rs[i + 1..])
  {
    assert rs[i..][0] == rs[i] && rs[i..][1..] == rs[i + 1..];
  }

  lemma SuffixEnds()
    ensures RunErrors([]) == [] && RunTraces([]) == []
  {
  }

  lemma {:induction false} RunStatesAre(rs: seq<StepMachine.Run>, vs: seq<StepState>)
    requires |rs| == |vs| && forall k | 0 <= k < |rs| :: rs[k].Finished? && vs[k] == rs[k].state
    ensures RunStates(rs) == vs
  {
    if rs != [] {
      RunStatesAre(rs[1..], vs[1..]);
    }
  }

  lemma RetryUnfolds(vs: seq<StepState>, fs: seq<Factory>, i: nat, err: Option<Error>,
                     last: Option<StepState>, o: Oracle)
    requires i < |fs| == |vs|
    requires forall k | i <= k < |fs| :: vs[k] == Initial(fs[k])
    requires RunRetry(vs[..i], fs[i..], err, last, o).Finished?
    ensures RunStep(fs[i], o).Finished?
    ensures
      var r := RunStep(fs[i], o);
      var vs' := vs[i := r.state];
      var whole := RunRetry(vs[..i], fs[i..], err, last, o);
      if r.err == Some(Interrupted) || (r.err.None? && StepMachine.Succeeded(r.state) == Some(true))
      then whole == Finished(r.err, RetryS(vs', Some(r.state)), r.trace)
      else
        && (r.err.None? ==> StepMachine.Succeeded(r.state).Some?)
        && var rest := RunRetry(vs'[..i + 1], fs[i + 1..], r.err, Some(r.state), o);
        rest.Finished? && whole == rest.(trace := r.trace + rest.trace)
  {
    var r := RunStep(fs[i], o);
    var vs' := vs[i := r.state];
    assert fs[i..][0] == fs[i] && fs[i..][1..] == fs[i + 1..];
    assert vs[..i] + [r.state] == vs'[..i + 1];
    InitialAllIs(fs[i + 1..], vs[i + 1..]);
    assert vs[..i] + [r.state] + vs[i + 1..] == vs';
  }

  lemma {:induction false} InitialAllAt(fs: seq<Factory>, i: nat)
    requires i < |fs|
    ensures InitialAll(fs)[i] == Initial(fs[i])
  {
    if i > 0 {
      InitialAllAt(fs[1..], i - 1);
    }
  }

  lemma {:induction false} InitialAllIs(fs: seq<Factory>, vs: seq<StepState>)
    requires |vs| == |fs| && forall i | 0 <= i < |vs| :: vs[i] == Initial(fs[i])
    ensures vs == InitialAll(fs)
  {
    if fs != [] {
      InitialAllIs(fs[1..], vs[1..]);
    }
  }

  /** Valid steps for the given factories, in separate parts of `below`. */
  ghost predicate Forest(subs: seq<Step>, fs: seq<Factory>, views: seq<StepState>, below: set<object>)
    reads below
  {
    && |subs| == |fs| == |views|
    && (forall i | 0 <= i < |subs| ::
          && subs[i] in below && subs[i].repr <= below
          && subs[i].factory == fs[i] && subs[i].Valid() && subs[i].view == views[i])
    && (forall i, j | 0 <= i < j < |subs| :: subs[i].repr !! subs[j].repr)
  }

  lemma NoTrees()
    ensures Forest([], [], InitialAll([]), {})
  {
  }

  lemma ForestView(subs: seq<Step>, fs: seq<Factory>, views: seq<StepState>, below: set<object>, i: nat)
    requires Forest(subs, fs, views, below) && i < |subs|
    ensures i < |views| && subs[i].view == views[i]
  {
  }

  lemma Widen(subs: seq<Step>, fs: seq<Factory>, views: seq<StepState>, below: set<object>, more: set<object>)
    requires Forest(subs, fs, views, below)
    ensures Forest(subs, fs, views, below + more)
  {
  }

  lemma Grow(subs: seq<Step>, fs: seq<Factory>, views: seq<StepState>, below: set<object>, sub: Step)
    requires Forest(subs, fs, views, below) && sub.Valid() && below !! sub.repr
    ensures Forest(subs + [sub], fs + [sub.factory], views + [sub.view], below + sub.repr)
  {
  }

  lemma {:induction false} InitialAllAppend(fs: seq<Factory>, f: Factory)
    ensures InitialAll(fs + [f]) == InitialAll(fs) + [Initial(f)]
  {
    if fs != [] {
      InitialAllAppend(fs[1..], f);
      assert (fs + [f])[1..] == fs[1..] + [f];
    }
  }
}
