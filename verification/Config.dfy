/** Pipeline configurations and the steps a job contains. */
module Config {
  import opened Options
  import TaskPaths

  /** A timeout is absent, a duration that parses, or one that does not. */
  datatype Timeout = Absent | Parses | Garbled

  /** A list of steps that may be missing; an empty one is not. */
  datatype Nested = Missing | Nested(plans: seq<Plan>)

  datatype Plan = Plan(get: string, put: string, task: string,
                       steps: Nested, aggregate: Nested, attempt: Option<Plan>,
                       resource: string, passed: seq<string>, trigger: bool,
                       privileged: bool, file: string, config: Option<TaskPaths.TaskConfig>,
                       abort: Option<Plan>, ensure: Option<Plan>, success: Option<Plan>, failure: Option<Plan>,
                       timeout: Timeout, attempts: int)

  datatype Job = Job(name: string, logsToRetain: int, plan: seq<Plan>,
                     abort: Option<Plan>, ensure: Option<Plan>, success: Option<Plan>, failure: Option<Plan>)

  datatype Resource = Resource(name: string, typ: string)

  datatype Group = Group(name: string, jobs: seq<string>, resources: seq<string>)

  datatype Pipeline = Pipeline(groups: seq<Group>, resources: seq<Resource>, types: seq<Resource>, jobs: seq<Job>)

  /** A get or put step's name and the resource it stands for. */
  datatype Input = Input(name: string, resource: string)

  // ---- Collecting steps ----------------------------------------------------------

  /** Every step of a plan at any depth, hooks first and the step itself last. */
  function Collected(plan: Plan): seq<Plan>
    decreases plan
  {
    CollectedIn(plan.abort) + CollectedIn(plan.success) + CollectedIn(plan.failure) + CollectedIn(plan.ensure)
    + CollectedIn(plan.attempt)
    + CollectedNested(plan.steps) + CollectedNested(plan.aggregate)
    + [plan]
  }

  function CollectedIn(plan: Option<Plan>): seq<Plan>
    decreases plan
  {
    if plan.None? then [] else Collected(plan.value)
  }

  function CollectedNested(nested: Nested): seq<Plan>
    decreases nested
  {
    if nested.Missing? then [] else CollectedAll(nested.plans)
  }

  function CollectedAll(plans: seq<Plan>): seq<Plan>
    decreases plans
  {
    if plans == [] then [] else Collected(plans[0]) + CollectedAll(plans[1..])
  }

  lemma {:induction false} CollectedSnoc(plans: seq<Plan>, p: Plan)
    ensures CollectedAll(plans + [p]) == CollectedAll(plans) + Collected(p)
  {
    if plans == [] {
      assert plans + [p] == [p];
      assert [p][1..] == [];
    } else {
      CollectedSnoc(plans[1..], p);
      assert (plans + [p])[1..] == plans[1..] + [p];
      assert Collected(plans[0]) + (CollectedAll(plans[1..]) + Collected(p)) == CollectedAll(plans) + Collected(p);
    }
  }

  method CollectPlans(plan: Plan) returns (plans: seq<Plan>)
    ensures plans == Collected(plan)
    decreases plan
  {
    hide CollectedIn, CollectedNested;
    plans := CollectHook(plan.abort);
    var more := CollectHook(plan.success);
    plans := plans + more;
    more := CollectHook(plan.failure);
    plans := plans + more;
    more := CollectHook(plan.ensure);
    plans := plans + more;
    more := CollectHook(plan.attempt);
    plans := plans + more;
    more := CollectNested(plan.steps);
    plans := plans + more;
    more := CollectNested(plan.aggregate);
    plans := plans + more;
    plans := plans + [plan];
  }

  method CollectHook(hook: Option<Plan>) returns (plans: seq<Plan>)
    ensures plans == CollectedIn(hook)
    decreases hook
  {
    plans := [];
    if hook.Some? { plans := CollectPlans(hook.value); }
  }

  method CollectNested(nested: Nested) returns (plans: seq<Plan>)
    ensures plans == CollectedNested(nested)
    decreases nested
  {
    plans := [];
    if nested.Nested? { plans := CollectEach(nested.plans); }
  }

  method CollectEach(subs: seq<Plan>) returns (plans: seq<Plan>)
    ensures plans == CollectedAll(subs)
    decreases subs
  {
    hide Collected;
    plans := [];
    var i := 0;
    while i < |subs|
      invariant i <= |subs| && plans == CollectedAll(subs[..i])
    {
      var more := CollectPlans(subs[i]);
      plans := plans + more;
      CollectedSnoc(subs[..i], subs[i]);
      assert subs[..i + 1] == subs[..i] + [subs[i]];
      i := i + 1;
    }
    assert subs[..|subs|] == subs;
  }

  // ---- What is collected -----------------------------------------------------------

  function Hooked(hook: Option<Plan>): seq<Plan>
  {
    if hook.None? then [] else [hook.value]
  }

  function Within(nested: Nested): seq<Plan>
  {
    if nested.Missing? then [] else nested.plans
  }

  /** The steps directly below a step. */
  function Children(p: Plan): seq<Plan>
  {
    Hooked(p.abort) + Hooked(p.success) + Hooked(p.failure) + Hooked(p.ensure) + Hooked(p.attempt)
    + Within(p.steps) + Within(p.aggregate)
  }

  /** The step at the end of a path of child indices. */
  function StepAt(p: Plan, path: seq<nat>): Option<Plan>
    decreases |path|
  {
    if path == [] then Some(p)
    else if path[0] >= |Children(p)| then None
    else StepAt(Children(p)[path[0]], path[1..])
  }

  lemma {:induction false} CollectedAllConcat(a: seq<Plan>, b: seq<Plan>)
    ensures CollectedAll(a + b) == CollectedAll(a) + CollectedAll(b)
    decreases |a|
  {
    hide Collected;
    if a == [] {
      assert a + b == b;
    } else {
      CollectedAllConcat(a[1..], b);
      assert (a + b)[1..] == a[1..] + b;
      assert Collected(a[0]) + (CollectedAll(a[1..]) + CollectedAll(b)) == CollectedAll(a) + CollectedAll(b);
    }
  }

  lemma HookedIsCollected(hook: Option<Plan>)
    ensures CollectedAll(Hooked(hook)) == CollectedIn(hook)
  {
    hide Collected;
    if hook.Some? { assert [hook.value][1..] == []; }
  }

  lemma WithinIsCollected(nested: Nested)
    ensures CollectedAll(Within(nested)) == CollectedNested(nested)
  {
  }

  /** A step collects what its children collect, and itself. */
  lemma CollectedByChildren(p: Plan)
    ensures Collected(p) == CollectedAll(Children(p)) + [p]
  {
    hide CollectedAll, CollectedIn, CollectedNested, Hooked, Within;
    HookedIsCollected(p.abort);
    HookedIsCollected(p.success);
    HookedIsCollected(p.failure);
    HookedIsCollected(p.ensure);
    HookedIsCollected(p.attempt);
    WithinIsCollected(p.steps);
    WithinIsCollected(p.aggregate);
    var s1 := Hooked(p.abort) + Hooked(p.success);
    var s2 := s1 + Hooked(p.failure);
    var s3 := s2 + Hooked(p.ensure);
    var s4 := s3 + Hooked(p.attempt);
    var s5 := s4 + Within(p.steps);
    CollectedAllConcat(Hooked(p.abort), Hooked(p.success));
    CollectedAllConcat(s1, Hooked(p.failure));
    CollectedAllConcat(s2, Hooked(p.ensure));
    CollectedAllConcat(s3, Hooked(p.attempt));
    CollectedAllConcat(s4, Within(p.steps));
    CollectedAllConcat(s5, Within(p.aggregate));
  }

  lemma {:induction false} InCollectedAll(plans: seq<Plan>, q: Plan)
    ensures q in CollectedAll(plans) <==> exists i :: 0 <= i < |plans| && q in Collected(plans[i])
    decreases |plans|
  {
    hide Collected;
    if plans != [] {
      InCollectedAll(plans[1..], q);
      assert forall i | 1 <= i < |plans| :: plans[i] == plans[1..][i - 1];
    }
  }

  lemma ChildIsSmaller(p: Plan, i: nat)
    requires i < |Children(p)|
    ensures Children(p)[i] < p
  {
  }

  /** Every collected step is at the end of some path of child links. */
  lemma {:induction false} CollectedHasPath(p: Plan, q: Plan) returns (path: seq<nat>)
    requires q in Collected(p)
    ensures StepAt(p, path) == Some(q)
    decreases p
  {
    hide Collected, Children;
    CollectedByChildren(p);
    if q == p {
      path := [];
    } else {
      InCollectedAll(Children(p), q);
      var i: nat :| i < |Children(p)| && q in Collected(Children(p)[i]);
      ChildIsSmaller(p, i);
      var rest := CollectedHasPath(Children(p)[i], q);
      path := [i] + rest;
      assert path[1..] == rest;
    }
  }

  /** And every step at the end of a path is collected. */
  lemma {:induction false} PathIsCollected(p: Plan, path: seq<nat>)
    requires StepAt(p, path).Some?
    ensures StepAt(p, path).value in Collected(p)
    decreases |path|
  {
    hide Collected, Children;
    CollectedByChildren(p);
    if path != [] {
      PathIsCollected(Children(p)[path[0]], path[1..]);
      InCollectedAll(Children(p), StepAt(p, path).value);
    }
  }

  /** A step is collected exactly when a path of child links leads to it. */
  lemma CollectedIffPath(p: Plan, q: Plan)
    ensures q in Collected(p) <==> exists path :: StepAt(p, path) == Some(q)
  {
    if q in Collected(p) { var path := CollectedHasPath(p, q); }
    if path :| StepAt(p, path) == Some(q) { PathIsCollected(p, path); }
  }

  // ---- Jobs ------------------------------------------------------------------------

  /** The job's plan and hooks as one step. */
  function Root(job: Job): Plan
  {
    Plan("", "", "", Nested(job.plan), Missing, None, "", [], false, false, "", None,
         job.abort, job.ensure, job.success, job.failure, Absent, 0)
  }

  function Steps(job: Job): seq<Plan>
  {
    Collected(Root(job))
  }

  function InputsOf(plans: seq<Plan>): seq<Input>
  {
    if plans == [] then []
    else
      var last := plans[|plans| - 1];
      InputsOf(plans[..|plans| - 1])
      + if last.get != "" then [Input(last.get, if last.resource != "" then last.resource else last.get)] else []
  }

  method Inputs(job: Job) returns (inputs: seq<Input>)
    ensures inputs == InputsOf(Steps(job))
  {
    var plans := CollectPlans(Root(job));
    inputs := [];
    var i := 0;
    while i < |plans|
      invariant i <= |plans| && inputs == InputsOf(plans[..i])
    {
      var plan := plans[i];
      if plan.get != "" {
        var resource := plan.get;
        if plan.resource != "" { resource := plan.resource; }
        inputs := inputs + [Input(plan.get, resource)];
      }
      assert plans[..i + 1][..i] == plans[..i];
      i := i + 1;
    }
    assert plans[..|plans|] == plans;
  }

  function OutputsOf(plans: seq<Plan>): seq<Input>
  {
    if plans == [] then []
    else
      var last := plans[|plans| - 1];
      OutputsOf(plans[..|plans| - 1])
      + if last.put != "" then [Input(last.put, if last.resource != "" then last.resource else last.put)] else []
  }

  /** The put steps collected, in order, with their resources. */
  method Outputs(job: Job) returns (outputs: seq<Input>)
    ensures outputs == OutputsOf(Steps(job))
  {
    var plans := CollectPlans(Root(job));
    outputs := [];
    var i := 0;
    while i < |plans|
      invariant i <= |plans| && outputs == OutputsOf(plans[..i])
    {
      var plan := plans[i];
      if plan.put != "" {
        var resource := plan.put;
        if plan.resource != "" { resource := plan.resource; }
        outputs := outputs + [Input(plan.put, resource)];
      }
      assert plans[..i + 1][..i] == plans[..i];
      i := i + 1;
    }
    assert plans[..|plans|] == plans;
  }

  /** The places of the steps that get something, or that put something, in order. */
  ghost predicate PlacesOf(plans: seq<Plan>, puts: bool, at: seq<nat>)
  {
    && (forall i | 0 <= i < |at| :: at[i] < |plans|)
    && (forall i, j | 0 <= i < j < |at| :: at[i] < at[j])
    && (forall n | 0 <= n < |plans| :: n in at <==> (if puts then plans[n].put else plans[n].get) != "")
  }

  lemma PlacesSnoc(plans: seq<Plan>, puts: bool, at: seq<nat>) returns (all: seq<nat>)
    requires plans != [] && PlacesOf(plans[..|plans| - 1], puts, at)
    ensures PlacesOf(plans, puts, all)
    ensures var last := plans[|plans| - 1];
      all == if (if puts then last.put else last.get) != "" then at + [|plans| - 1] else at
  {
    var rest, last := plans[..|plans| - 1], plans[|plans| - 1];
    all := if (if puts then last.put else last.get) != "" then at + [|plans| - 1] else at;
    forall n | 0 <= n < |plans|
      ensures n in all <==> (if puts then plans[n].put else plans[n].get) != ""
    {
      if n < |rest| { assert plans[n] == rest[n]; } else { assert forall i | 0 <= i < |at| :: at[i] < |rest|; }
    }
  }

  /** The inputs are the get steps, one each and in order: under the name of the get, the
      resource it names or else the one of that name. */
  lemma {:induction false} InputsInOrder(plans: seq<Plan>) returns (at: seq<nat>)
    ensures PlacesOf(plans, false, at) && |InputsOf(plans)| == |at|
    ensures forall i | 0 <= i < |at| ::
      var p := plans[at[i]]; InputsOf(plans)[i] == Input(p.get, if p.resource != "" then p.resource else p.get)
  {
    at := [];
    if plans != [] {
      at := InputsInOrder(plans[..|plans| - 1]);
      at := PlacesSnoc(plans, false, at);
    }
  }

  /** And the outputs are the put steps. */
  lemma {:induction false} OutputsInOrder(plans: seq<Plan>) returns (at: seq<nat>)
    ensures PlacesOf(plans, true, at) && |OutputsOf(plans)| == |at|
    ensures forall i | 0 <= i < |at| ::
      var p := plans[at[i]]; OutputsOf(plans)[i] == Input(p.put, if p.resource != "" then p.resource else p.put)
  {
    at := [];
    if plans != [] {
      at := OutputsInOrder(plans[..|plans| - 1]);
      at := PlacesSnoc(plans, true, at);
    }
  }

  /** Some get or put step of the job uses the resource. */
  ghost predicate Uses(job: Job, resource: string)
  {
    exists p :: p in Steps(job) && UsesIt(p, resource)
  }

  predicate UsesIt(p: Plan, resource: string)
  {
    || (p.get != "" && resource == (if p.resource != "" then p.resource else p.get))
    || (p.put != "" && resource == (if p.resource != "" then p.resource else p.put))
  }

  function LookupJob(jobs: seq<Job>, name: string): Option<Job>
  {
    if jobs == [] then None else if jobs[0].name == name then Some(jobs[0]) else LookupJob(jobs[1..], name)
  }

  predicate Named(resources: seq<Resource>, name: string)
  {
    exists r :: r in resources && r.name == name
  }
}
