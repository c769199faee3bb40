/**
 * Validation of a pipeline configuration. It reports no error exactly when every
 * step the collector finds is in order and names, uses and groups fit together.
 */
module Validate {
  import opened Options
  import opened Config
  import TaskPaths

  datatype Problem =
    | NoAction | ManyActions | InvalidFields | UnknownResource | UnknownJob | JobLacksResource
    | NoTaskConfig | TwoTaskConfigs | BadTaskConfig | BadTimeout | BadAttempts
    | DuplicateName | NoName | NoType | Unused | NegativeRetention | RepeatedGet | Ungrouped

  // ---- What a step must be ---------------------------------------------------------

  function One(b: bool): nat
  {
    if b then 1 else 0
  }

  function Actions(p: Plan): nat
  {
    One(p.get != "") + One(p.put != "") + One(p.task != "")
    + One(p.steps.Nested?) + One(p.aggregate.Nested?) + One(p.attempt.Some?)
  }

  ghost predicate PassedOk(c: Pipeline, resource: string, job: string)
  {
    LookupJob(c.jobs, job).Some? && Uses(LookupJob(c.jobs, job).value, resource)
  }

  ghost predicate GetOk(c: Pipeline, p: Plan)
  {
    && !p.privileged && p.config.None? && p.file == ""
    && var resource := if p.resource != "" then p.resource else p.get;
       Named(c.resources, resource) && forall j | 0 <= j < |p.passed| :: PassedOk(c, resource, p.passed[j])
  }

  ghost predicate PutOk(c: Pipeline, p: Plan)
  {
    && p.passed == [] && !p.trigger && !p.privileged && p.config.None? && p.file == ""
    && Named(c.resources, if p.resource != "" then p.resource else p.put)
  }

  ghost predicate TaskOk(p: Plan)
  {
    && (p.config.Some? <==> p.file == "") && (p.config.Some? ==> TaskPaths.TaskValid(p.config.value))
    && p.resource == "" && p.passed == [] && !p.trigger
  }

  /** One action, with what that action needs, a timeout that parses and no negative
      number of attempts. */
  ghost predicate StepOk(c: Pipeline, p: Plan)
  {
    && Actions(p) == 1
    && (p.get != "" ==> GetOk(c, p)) && (p.put != "" ==> PutOk(c, p)) && (p.task != "" ==> TaskOk(p))
    && !p.timeout.Garbled? && p.attempts >= 0
  }

  ghost predicate AllOk(c: Pipeline, plans: seq<Plan>)
  {
    forall p | p in plans :: StepOk(c, p)
  }

  lemma AllOkConcat(c: Pipeline, a: seq<Plan>, b: seq<Plan>)
    ensures AllOk(c, a + b) <==> AllOk(c, a) && AllOk(c, b)
  {
    if AllOk(c, a + b) {
      assert forall p | p in a :: p in a + b;
      assert forall p | p in b :: p in a + b;
    }
  }

  /** The steps of a plan are in order when it is, and what its parts contain. */
  lemma AllOkByPart(c: Pipeline, p: Plan)
    ensures AllOk(c, Collected(p)) <==>
      && AllOk(c, CollectedIn(p.abort)) && AllOk(c, CollectedIn(p.success)) && AllOk(c, CollectedIn(p.failure))
      && AllOk(c, CollectedIn(p.ensure)) && AllOk(c, CollectedIn(p.attempt))
      && AllOk(c, CollectedNested(p.steps)) && AllOk(c, CollectedNested(p.aggregate)) && StepOk(c, p)
  {
    hide CollectedIn, CollectedNested, StepOk;
    var s1 := CollectedIn(p.abort) + CollectedIn(p.success);
    var s2 := s1 + CollectedIn(p.failure);
    var s3 := s2 + CollectedIn(p.ensure);
    var s4 := s3 + CollectedIn(p.attempt);
    var s5 := s4 + CollectedNested(p.steps);
    var s6 := s5 + CollectedNested(p.aggregate);
    AllOkConcat(c, CollectedIn(p.abort), CollectedIn(p.success));
    AllOkConcat(c, s1, CollectedIn(p.failure));
    AllOkConcat(c, s2, CollectedIn(p.ensure));
    AllOkConcat(c, s3, CollectedIn(p.attempt));
    AllOkConcat(c, s4, CollectedNested(p.steps));
    AllOkConcat(c, s5, CollectedNested(p.aggregate));
    AllOkConcat(c, s6, [p]);
    AllOkOne(c, p);
  }

  lemma AllOkOne(c: Pipeline, p: Plan)
    ensures AllOk(c, [p]) <==> StepOk(c, p)
  {
    hide StepOk;
    assert p in [p];
  }

  // ---- Validating a step -------------------------------------------------------------

  method LookupResource(resources: seq<Resource>, name: string) returns (found: bool)
    ensures found <==> Named(resources, name)
  {
    var i := 0;
    while i < |resources|
      invariant i <= |resources| && forall k | 0 <= k < i :: resources[k].name != name
    {
      if resources[i].name == name { return true; }
      i := i + 1;
    }
    found := false;
  }

  lemma {:induction false} InputsAreGets(plans: seq<Plan>, resource: string)
    ensures (exists i | 0 <= i < |InputsOf(plans)| :: InputsOf(plans)[i].resource == resource)
      <==> exists p :: p in plans && p.get != "" && resource == (if p.resource != "" then p.resource else p.get)
  {
    if plans != [] {
      var last, rest := plans[|plans| - 1], plans[..|plans| - 1];
      InputsAreGets(rest, resource);
      assert plans == rest + [last];
      if i :| 0 <= i < |InputsOf(rest)| && InputsOf(rest)[i].resource == resource {
        assert InputsOf(plans)[i] == InputsOf(rest)[i];
      }
      if last.get != "" && resource == (if last.resource != "" then last.resource else last.get) {
        assert InputsOf(plans)[|InputsOf(rest)|].resource == resource;
      }
    }
  }

  lemma {:induction false} OutputsArePuts(plans: seq<Plan>, resource: string)
    ensures (exists i | 0 <= i < |OutputsOf(plans)| :: OutputsOf(plans)[i].resource == resource)
      <==> exists p :: p in plans && p.put != "" && resource == (if p.resource != "" then p.resource else p.put)
  {
    if plans != [] {
      var last, rest := plans[|plans| - 1], plans[..|plans| - 1];
      OutputsArePuts(rest, resource);
      assert plans == rest + [last];
      if i :| 0 <= i < |OutputsOf(rest)| && OutputsOf(rest)[i].resource == resource {
        assert OutputsOf(plans)[i] == OutputsOf(rest)[i];
      }
      if last.put != "" && resource == (if last.resource != "" then last.resource else last.put) {
        assert OutputsOf(plans)[|OutputsOf(rest)|].resource == resource;
      }
    }
  }

  /** A job uses exactly the resources of its inputs and outputs. */
  lemma UsesIsListed(job: Job, resource: string)
    ensures Uses(job, resource) <==>
      || (exists i | 0 <= i < |InputsOf(Steps(job))| :: InputsOf(Steps(job))[i].resource == resource)
      || (exists i | 0 <= i < |OutputsOf(Steps(job))| :: OutputsOf(Steps(job))[i].resource == resource)
  {
    hide InputsOf, OutputsOf;
    InputsAreGets(Steps(job), resource);
    OutputsArePuts(Steps(job), resource);
    if p :| p in Steps(job) && p.get != "" && resource == (if p.resource != "" then p.resource else p.get) {
      assert UsesIt(p, resource);
    }
    if p :| p in Steps(job) && p.put != "" && resource == (if p.resource != "" then p.resource else p.put) {
      assert UsesIt(p, resource);
    }
  }

  /** Whether the job gets or puts the resource. */
  method Interacts(job: Job, resource: string) returns (found: bool)
    ensures found <==> Uses(job, resource)
  {
    hide Uses;
    UsesIsListed(job, resource);
    var inputs := Inputs(job);
    var outputs := Outputs(job);
    var i := 0;
    while i < |inputs|
      invariant i <= |inputs| && forall k | 0 <= k < i :: inputs[k].resource != resource
    {
      if inputs[i].resource == resource { return true; }
      i := i + 1;
    }
    i := 0;
    while i < |outputs|
      invariant i <= |outputs| && forall k | 0 <= k < i :: outputs[k].resource != resource
    {
      if outputs[i].resource == resource { return true; }
      i := i + 1;
    }
    found := false;
  }

  method ValidatePassed(c: Pipeline, p: Plan, resource: string) returns (messages: seq<Problem>)
    ensures messages == [] <==> forall j | 0 <= j < |p.passed| :: PassedOk(c, resource, p.passed[j])
  {
    messages := [];
    var i := 0;
    while i < |p.passed|
      invariant i <= |p.passed|
      invariant messages == [] <==> forall j | 0 <= j < i :: PassedOk(c, resource, p.passed[j])
    {
      var job := LookupJob(c.jobs, p.passed[i]);
      if job.None? {
        messages := messages + [UnknownJob];
      } else {
        var found := Interacts(job.value, resource);
        if !found { messages := messages + [JobLacksResource]; }
      }
      i := i + 1;
    }
  }

  method ValidateAction(c: Pipeline, p: Plan) returns (messages: seq<Problem>)
    requires Actions(p) == 1
    ensures messages == [] <==>
      (p.get != "" ==> GetOk(c, p)) && (p.put != "" ==> PutOk(c, p)) && (p.task != "" ==> TaskOk(p))
  {
    messages := [];
    if p.get != "" {
      if p.privileged || p.config.Some? || p.file != "" { messages := messages + [InvalidFields]; }
      var resource := if p.resource != "" then p.resource else p.get;
      var found := LookupResource(c.resources, resource);
      if !found { messages := messages + [UnknownResource]; }
      var more := ValidatePassed(c, p, resource);
      messages := messages + more;
    } else if p.put != "" {
      if p.passed != [] || p.trigger || p.privileged || p.config.Some? || p.file != "" {
        messages := messages + [InvalidFields];
      }
      var found := LookupResource(c.resources, if p.resource != "" then p.resource else p.put);
      if !found { messages := messages + [UnknownResource]; }
    } else if p.task != "" {
      if p.config.None? && p.file == "" { messages := messages + [NoTaskConfig]; }
      if p.config.Some? && p.file != "" { messages := messages + [TwoTaskConfigs]; }
      if p.config.Some? {
        var invalid := TaskPaths.ValidateTask(p.config.value);
        if invalid != [] { messages := messages + [BadTaskConfig]; }
      }
      if p.resource != "" || p.passed != [] || p.trigger { messages := messages + [InvalidFields]; }
    }
  }

  /** No message exactly when every step the collector finds below is in order: with
      one action, both visit the same steps. */
  method ValidatePlan(c: Pipeline, p: Plan) returns (messages: seq<Problem>)
    ensures messages == [] <==> AllOk(c, Collected(p))
    decreases p
  {
    hide AllOk, Collected, CollectedIn, CollectedNested, GetOk, PutOk, TaskOk;
    AllOkByPart(c, p);
    EmptyIsOk(c);
    if Actions(p) == 0 { return [NoAction]; }
    if Actions(p) > 1 { return [ManyActions]; }
    messages := [];
    var more;
    if p.steps.Nested? {
      messages := ValidateEach(c, p.steps);
    } else if p.aggregate.Nested? {
      messages := ValidateEach(c, p.aggregate);
    } else if p.attempt.Some? {
      messages := ValidateHook(c, p.attempt);
    } else {
      messages := ValidateAction(c, p);
    }
    more := ValidateHook(c, p.abort);
    messages := messages + more;
    more := ValidateHook(c, p.ensure);
    messages := messages + more;
    more := ValidateHook(c, p.success);
    messages := messages + more;
    more := ValidateHook(c, p.failure);
    messages := messages + more;
    if p.timeout.Garbled? { messages := messages + [BadTimeout]; }
    if p.attempts < 0 { messages := messages + [BadAttempts]; }
  }

  lemma EmptyIsOk(c: Pipeline)
    ensures AllOk(c, []) && CollectedIn(None) == [] && CollectedNested(Missing) == []
  {
  }

  method ValidateHook(c: Pipeline, hook: Option<Plan>) returns (messages: seq<Problem>)
    ensures messages == [] <==> AllOk(c, CollectedIn(hook))
    decreases hook
  {
    messages := [];
    if hook.Some? { messages := ValidatePlan(c, hook.value); }
  }

  method ValidateEach(c: Pipeline, nested: Nested) returns (messages: seq<Problem>)
    requires nested.Nested?
    ensures messages == [] <==> AllOk(c, CollectedNested(nested))
    decreases nested
  {
    hide AllOk, Collected;
    EmptyIsOk(c);
    var plans := nested.plans;
    messages := [];
    var i := 0;
    while i < |plans|
      invariant i <= |plans|
      invariant messages == [] <==> AllOk(c, CollectedAll(plans[..i]))
    {
      var more := ValidatePlan(c, plans[i]);
      messages := messages + more;
      CollectedSnoc(plans[..i], plans[i]);
      AllOkConcat(c, CollectedAll(plans[..i]), Collected(plans[i]));
      assert plans[..i + 1] == plans[..i] + [plans[i]];
      i := i + 1;
    }
    assert plans[..|plans|] == plans;
  }

  // ---- Jobs --------------------------------------------------------------------------

  predicate Distinct(names: seq<string>)
  {
    forall i, j | 0 <= i < j < |names| :: names[i] != names[j]
  }

  function InputNames(inputs: seq<Input>): (r: seq<string>)
    ensures |r| == |inputs| && forall i | 0 <= i < |r| :: r[i] == inputs[i].name
  {
    seq(|inputs|, i requires 0 <= i < |inputs| => inputs[i].name)
  }

  ghost predicate JobOk(c: Pipeline, job: Job)
  {
    && job.name != "" && job.logsToRetain >= 0
    && AllOk(c, Steps(job))
    && Distinct(InputNames(InputsOf(Steps(job))))
  }

  method ValidateInputs(job: Job) returns (messages: seq<Problem>)
    ensures messages == [] <==> Distinct(InputNames(InputsOf(Steps(job))))
  {
    var inputs := Inputs(job);
    ghost var names := InputNames(inputs);
    messages := [];
    var encountered: map<string, nat> := map[];
    var i := 0;
    while i < |inputs|
      invariant i <= |inputs|
      invariant forall n :: n in encountered <==> n in names[..i]
      invariant forall n | n in encountered :: encountered[n] >= 1
      invariant messages == [] ==> forall n | n in encountered :: encountered[n] == 1
      invariant messages == [] <==> Distinct(names[..i])
    {
      var name := inputs[i].name;
      assert names[..i + 1] == names[..i] + [name];
      var times := (if name in encountered then encountered[name] else 0) + 1;
      DistinctSnoc(names[..i], name);
      encountered := encountered[name := times];
      if times == 2 { messages := messages + [RepeatedGet]; }
      i := i + 1;
    }
    assert names[..|inputs|] == names;
  }

  lemma DistinctSnoc(names: seq<string>, name: string)
    ensures Distinct(names + [name]) <==> Distinct(names) && name !in names
  {
    var more := names + [name];
    assert forall i | 0 <= i < |names| :: more[i] == names[i];
    if name in names {
      var i :| 0 <= i < |names| && names[i] == name;
      assert more[i] == more[|names|];
    }
  }

  /** The root step of a job stands for its plan and its four hooks. */
  lemma RootByPart(c: Pipeline, job: Job)
    ensures AllOk(c, Steps(job)) <==>
      && AllOk(c, Collected(PlanOnly(job))) && AllOk(c, CollectedIn(job.abort)) && AllOk(c, CollectedIn(job.failure))
      && AllOk(c, CollectedIn(job.ensure)) && AllOk(c, CollectedIn(job.success))
  {
    hide AllOk, Collected, CollectedIn, CollectedNested;
    AllOkByPart(c, Root(job));
    AllOkByPart(c, PlanOnly(job));
    EmptyIsOk(c);
  }

  function PlanOnly(job: Job): Plan
  {
    Root(job).(abort := None, ensure := None, success := None, failure := None)
  }

  method ValidateJob(c: Pipeline, job: Job) returns (messages: seq<Problem>)
    ensures messages == [] <==> JobOk(c, job)
  {
    hide AllOk, Collected, CollectedIn, InputsOf, Distinct;
    RootByPart(c, job);
    messages := [];
    if job.name == "" { messages := messages + [NoName]; }
    if job.logsToRetain < 0 { messages := messages + [NegativeRetention]; }
    var more := ValidatePlan(c, PlanOnly(job));
    messages := messages + more;
    more := ValidateHook(c, job.abort);
    messages := messages + more;
    more := ValidateHook(c, job.failure);
    messages := messages + more;
    more := ValidateHook(c, job.ensure);
    messages := messages + more;
    more := ValidateHook(c, job.success);
    messages := messages + more;
    more := ValidateInputs(job);
    messages := messages + more;
  }

  /** Non-empty names are not repeated. */
  predicate Unrepeated(names: seq<string>)
  {
    forall i, j | 0 <= i < j < |names| && names[j] != "" :: names[i] != names[j]
  }

  method ValidateNames(names: seq<string>) returns (messages: seq<Problem>)
    ensures messages == [] <==> Unrepeated(names)
  {
    messages := [];
    var seen: set<string> := {};
    var i := 0;
    while i < |names|
      invariant i <= |names|
      invariant forall n :: n in seen <==> n in names[..i] && n != ""
      invariant messages == [] <==> Unrepeated(names[..i])
    {
      UnrepeatedSnoc(names[..i], names[i]);
      assert names[..i + 1] == names[..i] + [names[i]];
      if names[i] in seen {
        messages := messages + [DuplicateName];
      } else if names[i] != "" {
        seen := seen + {names[i]};
      }
      i := i + 1;
    }
    assert names[..|names|] == names;
  }

  lemma UnrepeatedSnoc(names: seq<string>, name: string)
    ensures Unrepeated(names + [name]) <==> Unrepeated(names) && (name == "" || name !in names)
  {
    var more := names + [name];
    assert forall i | 0 <= i < |names| :: more[i] == names[i];
    if name in names && name != "" {
      var i :| 0 <= i < |names| && names[i] == name;
      assert more[i] == more[|names|];
    }
  }

  function JobNames(jobs: seq<Job>): (r: seq<string>)
    ensures |r| == |jobs| && forall i | 0 <= i < |r| :: r[i] == jobs[i].name
  {
    seq(|jobs|, i requires 0 <= i < |jobs| => jobs[i].name)
  }

  function ResourceNames(resources: seq<Resource>): (r: seq<string>)
    ensures |r| == |resources| && forall i | 0 <= i < |r| :: r[i] == resources[i].name
  {
    seq(|resources|, i requires 0 <= i < |resources| => resources[i].name)
  }

  ghost predicate JobsOk(c: Pipeline)
  {
    Distinct(JobNames(c.jobs)) && forall j | 0 <= j < |c.jobs| :: JobOk(c, c.jobs[j])
  }

  method ValidateJobs(c: Pipeline) returns (messages: seq<Problem>)
    ensures messages == [] <==> JobsOk(c)
  {
    hide JobOk;
    messages := ValidateNames(JobNames(c.jobs));
    var i := 0;
    while i < |c.jobs|
      invariant i <= |c.jobs|
      invariant messages == [] <==> Unrepeated(JobNames(c.jobs)) && forall j | 0 <= j < i :: JobOk(c, c.jobs[j])
    {
      var more := ValidateJob(c, c.jobs[i]);
      messages := messages + more;
      i := i + 1;
    }
    JobOkIsNamed(c);
  }

  lemma JobOkIsNamed(c: Pipeline)
    ensures (forall j | 0 <= j < |c.jobs| :: JobOk(c, c.jobs[j])) ==>
      (Unrepeated(JobNames(c.jobs)) <==> Distinct(JobNames(c.jobs)))
  {
    if forall j | 0 <= j < |c.jobs| :: JobOk(c, c.jobs[j]) {
      assert forall j | 0 <= j < |c.jobs| :: JobNames(c.jobs)[j] == c.jobs[j].name != "";
    }
  }

  // ---- Resources and groups ----------------------------------------------------------

  predicate NamedAndTyped(resources: seq<Resource>)
  {
    && Distinct(ResourceNames(resources))
    && forall i | 0 <= i < |resources| :: resources[i].name != "" && resources[i].typ != ""
  }

  ghost predicate Used(c: Pipeline, name: string)
  {
    exists j :: 0 <= j < |c.jobs| && Uses(c.jobs[j], name)
  }

  /** The loop shared in form by resources and resource types. */
  method ValidateTyped(resources: seq<Resource>) returns (messages: seq<Problem>)
    ensures messages == [] <==> NamedAndTyped(resources)
  {
    messages := ValidateNames(ResourceNames(resources));
    var i := 0;
    while i < |resources|
      invariant i <= |resources|
      invariant messages == [] <==>
        && Unrepeated(ResourceNames(resources))
        && forall k | 0 <= k < i :: resources[k].name != "" && resources[k].typ != ""
    {
      if resources[i].name == "" { messages := messages + [NoName]; }
      if resources[i].typ == "" { messages := messages + [NoType]; }
      i := i + 1;
    }
  }

  method ResourcesOf(job: Job) returns (used: set<string>)
    ensures forall n :: n in used <==> Uses(job, n)
  {
    hide Uses;
    var inputs := Inputs(job);
    var outputs := Outputs(job);
    used := (set i | 0 <= i < |inputs| :: inputs[i].resource) + set i | 0 <= i < |outputs| :: outputs[i].resource;
    forall n
      ensures n in used <==> Uses(job, n)
    {
      UsesIsListed(job, n);
    }
  }

  method UsedResources(c: Pipeline) returns (used: set<string>)
    ensures forall n :: n in used <==> Used(c, n)
  {
    hide Uses;
    used := {};
    var i := 0;
    while i < |c.jobs|
      invariant i <= |c.jobs|
      invariant forall n :: n in used <==> exists j :: 0 <= j < i && Uses(c.jobs[j], n)
    {
      var more := ResourcesOf(c.jobs[i]);
      used := used + more;
      i := i + 1;
    }
  }

  ghost predicate ResourcesOk(c: Pipeline)
  {
    NamedAndTyped(c.resources) && forall i | 0 <= i < |c.resources| :: Used(c, c.resources[i].name)
  }

  method ValidateResources(c: Pipeline) returns (messages: seq<Problem>)
    ensures messages == [] <==> ResourcesOk(c)
  {
    hide Used, NamedAndTyped;
    messages := ValidateTyped(c.resources);
    var used := UsedResources(c);
    var i := 0;
    while i < |c.resources|
      invariant i <= |c.resources|
      invariant messages == [] <==> NamedAndTyped(c.resources) && forall k | 0 <= k < i :: Used(c, c.resources[k].name)
    {
      if c.resources[i].name !in used { messages := messages + [Unused]; }
      i := i + 1;
    }
  }

  predicate HasJob(c: Pipeline, name: string)
  {
    name in JobNames(c.jobs)
  }

  predicate GroupOk(c: Pipeline, g: Group)
  {
    && (forall i | 0 <= i < |g.jobs| :: HasJob(c, g.jobs[i]))
    && (forall i | 0 <= i < |g.resources| :: Named(c.resources, g.resources[i]))
  }

  predicate Grouped(groups: seq<Group>, name: string)
  {
    exists g :: g in groups && name in g.jobs
  }

  predicate GroupsOk(c: Pipeline)
  {
    && (forall i | 0 <= i < |c.groups| :: GroupOk(c, c.groups[i]))
    && (c.groups != [] ==> forall j | 0 <= j < |c.jobs| :: Grouped(c.groups, c.jobs[j].name))
  }

  method ValidateGroup(c: Pipeline, g: Group) returns (messages: seq<Problem>)
    ensures messages == [] <==> GroupOk(c, g)
  {
    messages := [];
    var i := 0;
    while i < |g.jobs|
      invariant i <= |g.jobs|
      invariant messages == [] <==> forall k | 0 <= k < i :: HasJob(c, g.jobs[k])
    {
      if g.jobs[i] !in JobNames(c.jobs) { messages := messages + [UnknownJob]; }
      i := i + 1;
    }
    i := 0;
    while i < |g.resources|
      invariant i <= |g.resources|
      invariant messages == [] <==>
        && (forall k | 0 <= k < |g.jobs| :: HasJob(c, g.jobs[k]))
        && forall k | 0 <= k < i :: Named(c.resources, g.resources[k])
    {
      var found := LookupResource(c.resources, g.resources[i]);
      if !found { messages := messages + [UnknownResource]; }
      i := i + 1;
    }
  }

  method ValidateGroups(c: Pipeline) returns (messages: seq<Problem>)
    ensures messages == [] <==> GroupsOk(c)
  {
    hide GroupOk;
    messages := [];
    var grouped: set<string> := {};
    var i := 0;
    while i < |c.groups|
      invariant i <= |c.groups|
      invariant messages == [] <==> forall k | 0 <= k < i :: GroupOk(c, c.groups[k])
      invariant forall n :: n in grouped <==> Grouped(c.groups[..i], n)
    {
      var more := ValidateGroup(c, c.groups[i]);
      messages := messages + more;
      grouped := grouped + set n | n in c.groups[i].jobs;
      assert c.groups[..i + 1] == c.groups[..i] + [c.groups[i]];
      i := i + 1;
    }
    assert c.groups[..|c.groups|] == c.groups;
    if |c.groups| != 0 {
      i := 0;
      while i < |c.jobs|
        invariant i <= |c.jobs|
        invariant messages == [] <==>
          && (forall k | 0 <= k < |c.groups| :: GroupOk(c, c.groups[k]))
          && forall j | 0 <= j < i :: Grouped(c.groups, c.jobs[j].name)
      {
        if c.jobs[i].name !in grouped { messages := messages + [Ungrouped]; }
        i := i + 1;
      }
    }
  }

  ghost predicate Valid(c: Pipeline)
  {
    GroupsOk(c) && ResourcesOk(c) && NamedAndTyped(c.types) && JobsOk(c)
  }

  /** No error is reported exactly for the configurations in which everything holds. */
  method ValidatePipeline(c: Pipeline) returns (messages: seq<Problem>)
    ensures messages == [] <==> Valid(c)
  {
    hide GroupsOk, ResourcesOk, NamedAndTyped, JobsOk;
    messages := ValidateGroups(c);
    var more := ValidateResources(c);
    messages := messages + more;
    more := ValidateTyped(c.types);
    messages := messages + more;
    more := ValidateJobs(c);
    messages := messages + more;
  }

  // ---- What validity means for the steps at the end of any path ------------------------

  lemma {:induction false} InputNamed(plans: seq<Plan>, i: nat) returns (k: nat)
    requires i < |plans| && plans[i].get != ""
    ensures k < |InputsOf(plans)| && InputsOf(plans)[k].name == plans[i].get
  {
    var rest := plans[..|plans| - 1];
    if i < |rest| {
      k := InputNamed(rest, i);
    } else {
      k := |InputsOf(rest)|;
    }
  }

  /** Distinct inputs come from get steps that are named apart, wherever they are. */
  lemma {:induction false} GetsAreApart(plans: seq<Plan>, i: nat, j: nat)
    requires Distinct(InputNames(InputsOf(plans)))
    requires i < j < |plans| && plans[i].get != "" && plans[j].get != ""
    ensures plans[i].get != plans[j].get
    decreases |plans|
  {
    var rest := plans[..|plans| - 1];
    var ins, before := InputsOf(plans), InputsOf(rest);
    if j < |rest| {
      assert forall k | 0 <= k < |before| :: ins[k] == before[k];
      assert forall k | 0 <= k < |before| :: InputNames(before)[k] == InputNames(ins)[k];
      GetsAreApart(rest, i, j);
    } else {
      var k := InputNamed(rest, i);
      assert InputNames(ins)[k] == plans[i].get && InputNames(ins)[|before|] == plans[j].get;
    }
  }

  lemma {:induction false} LookedUpIsThere(jobs: seq<Job>, name: string) returns (j: nat)
    requires LookupJob(jobs, name).Some?
    ensures j < |jobs| && jobs[j] == LookupJob(jobs, name).value && jobs[j].name == name
  {
    if jobs[0].name == name {
      j := 0;
    } else {
      j := LookedUpIsThere(jobs[1..], name);
      j := j + 1;
    }
  }

  /** Below any job of a valid pipeline, a step at the end of any path of child links
      has one action, a timeout that parses and no negative attempts, gets or puts a
      declared resource or has one valid task configuration, and no field that is not for
      its action. */
  lemma ValidAtEveryPath(c: Pipeline, j: nat, path: seq<nat>)
    requires Valid(c) && j < |c.jobs| && StepAt(Root(c.jobs[j]), path).Some?
    ensures var p := StepAt(Root(c.jobs[j]), path).value;
      && Actions(p) == 1 && !p.timeout.Garbled? && p.attempts >= 0
      && (p.get != "" ==>
            && Named(c.resources, if p.resource != "" then p.resource else p.get)
            && !p.privileged && p.config.None? && p.file == "")
      && (p.put != "" ==>
            && Named(c.resources, if p.resource != "" then p.resource else p.put)
            && p.passed == [] && !p.trigger && !p.privileged && p.config.None? && p.file == "")
      && (p.task != "" ==>
            && p.resource == "" && p.passed == [] && !p.trigger
            && (if p.config.Some? then p.file == "" && TaskPaths.TaskValid(p.config.value) else p.file != ""))
  {
    PathIsCollected(Root(c.jobs[j]), path);
    assert JobOk(c, c.jobs[j]);
  }

  /** A `passed` job exists, and some step of it, at the end of a path, gets or puts
      the resource. */
  lemma ValidPassed(c: Pipeline, j: nat, path: seq<nat>, i: nat) returns (job: nat, at: seq<nat>)
    requires Valid(c) && j < |c.jobs| && StepAt(Root(c.jobs[j]), path).Some?
    requires var p := StepAt(Root(c.jobs[j]), path).value; p.get != "" && i < |p.passed|
    ensures var p := StepAt(Root(c.jobs[j]), path).value;
      var resource := if p.resource != "" then p.resource else p.get;
      && job < |c.jobs| && c.jobs[job].name == p.passed[i]
      && StepAt(Root(c.jobs[job]), at).Some? && UsesIt(StepAt(Root(c.jobs[job]), at).value, resource)
  {
    var p := StepAt(Root(c.jobs[j]), path).value;
    var resource := if p.resource != "" then p.resource else p.get;
    PathIsCollected(Root(c.jobs[j]), path);
    assert JobOk(c, c.jobs[j]) && StepOk(c, p) && PassedOk(c, resource, p.passed[i]);
    job := LookedUpIsThere(c.jobs, p.passed[i]);
    var q :| q in Steps(c.jobs[job]) && UsesIt(q, resource);
    at := CollectedHasPath(Root(c.jobs[job]), q);
  }

  /** Two get steps of one job, wherever they are, have different names. */
  lemma ValidGetNames(c: Pipeline, j: nat, a: nat, b: nat)
    requires Valid(c) && j < |c.jobs| && a < b < |Steps(c.jobs[j])|
    requires Steps(c.jobs[j])[a].get != "" && Steps(c.jobs[j])[b].get != ""
    ensures Steps(c.jobs[j])[a].get != Steps(c.jobs[j])[b].get
  {
    assert JobOk(c, c.jobs[j]);
    GetsAreApart(Steps(c.jobs[j]), a, b);
  }

  /** Every declared resource is got or put by some step, at the end of a path. */
  lemma ValidUse(c: Pipeline, r: nat) returns (job: nat, at: seq<nat>)
    requires Valid(c) && r < |c.resources|
    ensures job < |c.jobs| && StepAt(Root(c.jobs[job]), at).Some?
    ensures UsesIt(StepAt(Root(c.jobs[job]), at).value, c.resources[r].name)
  {
    assert Used(c, c.resources[r].name);
    job :| 0 <= job < |c.jobs| && Uses(c.jobs[job], c.resources[r].name);
    var q :| q in Steps(c.jobs[job]) && UsesIt(q, c.resources[r].name);
    at := CollectedHasPath(Root(c.jobs[job]), q);
  }
}
