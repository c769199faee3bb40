/**
 * The reaper of one job step by step: it loads the job, makes its listings, deletes
 * events and updates first_logged_build_id, each on its own, among builds that are
 * created and finish. It may stop anywhere, and any listing may break after some rows
 * without notice. A lock keeps other reapers away.
 */
module ReaperRuns {
  import opened Pages
  import opened Reaper

  /** `first` is what the reaper loaded. */
  datatype Process =
    | Idle
    | Loaded(first: nat, batch: nat, retain: nat)
    | OneListed(first: nat, batch: nat, retain: nat, one: seq<Build>)
    | AllListed(first: nat, retain: nat, considered: seq<Build>)
    | Decided(first: nat, ids: seq<nat>)
    | Deleted(first: nat, ids: seq<nat>)

  /** `reaped` are the ids of the builds whose events are gone. */
  datatype Job = Job(builds: seq<Build>, first: nat, reaped: set<nat>, reaper: Process)

  datatype Step =
    | NewBuild(id: nat) | FinishBuild(index: nat)
    | Load(batch: nat, retain: nat)
    | ListOne(read: nat) | ListAll(read: nat) | ListRetained(read: nat)
    | Delete | Update | Stop

  predicate Enabled(j: Job, s: Step)
  {
    match s
    case NewBuild(id) => id > 0 && forall b | b in j.builds :: b.id < id
    case FinishBuild(i) => i < |j.builds|
    case Load(_, _) => j.reaper.Idle?
    case ListOne(_) => j.reaper.Loaded?
    case ListAll(_) => j.reaper.OneListed?
    case ListRetained(_) => j.reaper.AllListed?
    case Delete => j.reaper.Decided?
    case Update => j.reaper.Deleted? && j.reaper.ids != []
    case Stop => true
  }

  function Do(j: Job, s: Step): Job
    requires Enabled(j, s)
  {
    match s
    case NewBuild(id) => j.(builds := j.builds + [Build(id, true)])
    case FinishBuild(i) => j.(builds := j.builds[i := j.builds[i].(running := false)])
    case Load(batch, retain) => if retain == 0 then j else j.(reaper := Loaded(j.first, batch, retain))
    case ListOne(read) =>
      var r := j.reaper;
      j.(reaper := OneListed(r.first, r.batch, r.retain, OneOf(j.builds, r.first, read)))
    case ListAll(read) =>
      var r := j.reaper;
      j.(reaper := AllListed(r.first, r.retain, AllOf(j.builds, r.first, r.batch, r.one, read)))
    case ListRetained(read) =>
      var ids := Decide(j.builds, j.reaper.retain, j.reaper.considered, read);
      j.(reaper := if ids == [] then Idle else Decided(j.reaper.first, ids))
    case Delete =>
      j.(reaped := j.reaped + (set x | x in j.reaper.ids), reaper := Deleted(j.reaper.first, j.reaper.ids))
    case Update => j.(first := j.reaper.ids[|j.reaper.ids| - 1] + 1, reaper := Idle)
    case Stop => j.(reaper := Idle)
  }

  predicate Allowed(j: Job, steps: seq<Step>)
    decreases |steps|
  {
    steps == [] || (Enabled(j, steps[0]) && Allowed(Do(j, steps[0]), steps[1..]))
  }

  function Exec(j: Job, steps: seq<Step>): Job
    requires Allowed(j, steps)
    decreases |steps|
  {
    if steps == [] then j else Exec(Do(j, steps[0]), steps[1..])
  }

  // ---- The invariant -----------------------------------------------------------------

  function Span(t: seq<Build>, b: nat, p: nat): set<nat>
    requires p <= |t|
  {
    set i | b <= i < p :: t[i].id
  }

  /** Reaped are the builds from `b` to before `p`, all finished; only build 1 may be left
      out below them. They reach at least to `first`, which follows one of them. */
  predicate Reaped(t: seq<Build>, first: nat, reaped: set<nat>, b: nat, p: nat)
  {
    && b <= p <= |t| && reaped == Span(t, b, p)
    && (b == 0 || (b == 1 && t[0].id == 1))
    && (forall i | b <= i < p :: !t[i].running)
    && Below(t, first) <= p
    && (first > 1 ==> var a := Below(t, first); a > b && first == t[a - 1].id + 1)
  }

  /** A run starts with the oldest build not yet below `first`, or misses build 1. */
  predicate Starts(t: seq<Build>, first: nat, a: nat)
  {
    a == Below(t, first) || (a == 1 && first <= 1 && t != [] && t[0].id == 1)
  }

  /** The builds listed, newest first, are neighbours from `a` on; what had finished has. */
  predicate ListedFrom(t: seq<Build>, builds: seq<Build>, a: nat)
  {
    && a + |builds| <= |t|
    && forall i | a <= i < a + |builds| ::
         t[i].id == builds[a + |builds| - 1 - i].id && (t[i].running ==> builds[a + |builds| - 1 - i].running)
  }

  /** The ids are those of finished neighbours from `a` on. */
  predicate IdsFrom(t: seq<Build>, ids: seq<nat>, a: nat)
  {
    && ids != [] && a + |ids| <= |t|
    && forall i | a <= i < a + |ids| :: t[i].id == ids[i - a] && !t[i].running
  }

  predicate OneOk(t: seq<Build>, first: nat, one: seq<Build>)
  {
    one == [] || (first <= 1 && |one| == 1 && t != [] && t[0].id == one[0].id == 1 && (t[0].running ==> one[0].running))
  }

  ghost predicate ReaperOk(t: seq<Build>, first: nat, reaped: set<nat>, r: Process)
  {
    && (!r.Idle? ==> r.first == first)
    && match r
       case OneListed(_, _, _, one) => OneOk(t, first, one)
       case AllListed(_, _, builds) => exists a: nat :: ListedFrom(t, builds, a) && Starts(t, first, a)
       case Decided(_, ids) => exists a: nat :: IdsFrom(t, ids, a) && Starts(t, first, a)
       case Deleted(_, ids) =>
         exists a: nat :: IdsFrom(t, ids, a) && Starts(t, first, a) && forall x | x in ids :: x in reaped
       case _ => true
  }

  ghost predicate Inv(j: Job)
  {
    && Ascending(j.builds)
    && (exists b: nat, p: nat :: Reaped(j.builds, j.first, j.reaped, b, p))
    && ReaperOk(j.builds, j.first, j.reaped, j.reaper)
  }

  /** A new job: nothing built, nothing reaped, and first_logged_build_id is 0. */
  lemma NewJobInv()
    ensures Inv(Job([], 0, {}, Idle))
  {
    assert Reaped([], 0, {}, 0, 0);
  }

  // ---- Builds come and finish ----------------------------------------------------------

  /** The table goes on with the same builds, of which some may have finished. */
  predicate GoesOn(t: seq<Build>, u: seq<Build>)
  {
    |t| <= |u| && forall i | 0 <= i < |t| :: t[i].id == u[i].id && (u[i].running ==> t[i].running)
  }

  lemma {:induction false} BelowSame(t: seq<Build>, u: seq<Build>, x: nat)
    requires |t| <= |u| && (forall i | 0 <= i < |t| :: t[i].id == u[i].id) && (|t| < |u| ==> u[|t|].id >= x)
    ensures Below(t, x) == Below(u, x)
  {
    if t != [] && t[0].id < x { BelowSame(t[1..], u[1..], x); }
  }

  lemma GoesOnKeepsReaped(t: seq<Build>, u: seq<Build>, first: nat, reaped: set<nat>, b: nat, p: nat)
    requires Ascending(t) && Ascending(u) && GoesOn(t, u) && Reaped(t, first, reaped, b, p)
    ensures Below(t, first) == Below(u, first) && Reaped(u, first, reaped, b, p)
  {
    if |t| < |u| && first > 1 {
      var a := Below(t, first);
      assert t[a - 1].id == u[a - 1].id < u[|t|].id;
    }
    BelowSame(t, u, first);
    assert Span(t, b, p) == Span(u, b, p);
  }

  lemma GoesOnKeepsReaper(t: seq<Build>, u: seq<Build>, first: nat, reaped: set<nat>, r: Process)
    requires GoesOn(t, u) && Below(t, first) == Below(u, first) && ReaperOk(t, first, reaped, r)
    ensures ReaperOk(u, first, reaped, r)
  {
    hide Below;
    match r
    case AllListed(_, _, builds) =>
      var a: nat :| ListedFrom(t, builds, a) && Starts(t, first, a);
      assert ListedFrom(u, builds, a) && Starts(u, first, a);
    case Decided(_, ids) =>
      var a: nat :| IdsFrom(t, ids, a) && Starts(t, first, a);
      assert IdsFrom(u, ids, a) && Starts(u, first, a);
    case Deleted(_, ids) =>
      var a: nat :| IdsFrom(t, ids, a) && Starts(t, first, a);
      assert IdsFrom(u, ids, a) && Starts(u, first, a);
    case _ =>
  }

  lemma BuildsKeepInv(j: Job, s: Step)
    requires Inv(j) && Enabled(j, s) && (s.NewBuild? || s.FinishBuild?)
    ensures Inv(Do(j, s))
  {
    hide Reaped, ReaperOk, Below;
    var t, u := j.builds, Do(j, s).builds;
    assert forall i | 0 <= i < |t| :: t[i] in t;
    var b: nat, p: nat :| Reaped(t, j.first, j.reaped, b, p);
    GoesOnKeepsReaped(t, u, j.first, j.reaped, b, p);
    GoesOnKeepsReaper(t, u, j.first, j.reaped, j.reaper);
  }

  // ---- The reaper's steps ----------------------------------------------------------------

  lemma ListKeepsInv(j: Job, s: Step)
    requires Inv(j) && Enabled(j, s) && (s.Load? || s.ListOne? || s.Stop?)
    ensures Inv(Do(j, s))
  {
    hide Reaped, Below, OneOf;
    if s.ListOne? { OneIs(j.builds, j.first, s.read); }
  }

  lemma ListAllKeepsInv(j: Job, read: nat)
    requires Inv(j) && Enabled(j, ListAll(read))
    ensures Inv(Do(j, ListAll(read)))
  {
    hide Reaped, Below, AllOf, Reversed;
    var t, r := j.builds, j.reaper;
    var m, hi := AllIs(t, r.first, r.batch, r.one, read);
    var a := if r.one == [] then m else 0;
    if r.first <= 1 { AboutOne(t, r.first); }
    ListedWith(t, m, hi, r.one, a);
    assert ListedFrom(t, AllOf(t, r.first, r.batch, r.one, read), a) && Starts(t, r.first, a);
  }

  lemma ListedWith(t: seq<Build>, m: nat, hi: nat, one: seq<Build>, a: nat)
    requires m <= hi <= |t|
    requires if one == [] then a == m else a == 0 && m == 1 && |one| == 1 && OneOk(t, 0, one)
    ensures ListedFrom(t, Reversed(t[m..hi]) + one, a)
  {
    hide Reversed;
    var listed := Reversed(t[m..hi]);
    var builds := listed + one;
    ReversedAll(t[m..hi]);
    forall i | a <= i < a + |builds|
      ensures i < |t| && t[i].id == builds[a + |builds| - 1 - i].id
      ensures t[i].running ==> builds[a + |builds| - 1 - i].running
    {
      if i >= m {
        assert builds[a + |builds| - 1 - i] == listed[hi - 1 - i] == t[m..hi][i - m] == t[i];
      } else {
        assert builds[a + |builds| - 1 - i] == one[0];
      }
    }
  }

  lemma ListRetainedKeepsInv(j: Job, read: nat)
    requires Inv(j) && Enabled(j, ListRetained(read))
    ensures Inv(Do(j, ListRetained(read)))
  {
    hide Reaped, Below, Pick;
    var t, r := j.builds, j.reaper;
    var a: nat :| ListedFrom(t, r.considered, a) && Starts(t, r.first, a);
    var ids := Decide(t, r.retain, r.considered, read);
    if ids != [] {
      DecidedFrom(t, r.considered, a, r.retain, read);
      assert IdsFrom(t, ids, a);
    }
  }

  /** The k-th of the builds listed, from the oldest. */
  function Oldest(builds: seq<Build>, k: nat): Build
    requires k < |builds|
  {
    builds[|builds| - 1 - k]
  }

  /** What is decided on are finished builds before those the reaper takes for retained. */
  lemma DecidedFrom(t: seq<Build>, builds: seq<Build>, a: nat, retain: nat, read: nat)
    requires Ascending(t) && ListedFrom(t, builds, a)
    ensures var ids, n := Decide(t, retain, builds, read), Min(|t|, Min(retain, read));
      && |ids| <= |builds|
      && (ids != [] ==> n > 0 && IdsFrom(t, ids, a) && a + |ids| <= |t| - n)
      && (forall k | 0 <= k < |ids| :: !Oldest(builds, k).running)
      && (n > 0 && |ids| < |builds| ==> a + |ids| >= |t| - n || Oldest(builds, |ids|).running)
  {
    hide Pick;
    RetainedFrom(t, retain, read);
    var n := Min(|t|, Min(retain, read));
    var ids := Decide(t, retain, builds, read);
    if n > 0 {
      PickIs(builds, t[|t| - n].id);
      forall i | a <= i < a + |ids|
        ensures t[i].id == ids[i - a] && !t[i].running
      {
        assert ids[i - a] == builds[|builds| - 1 - (i - a)].id;
      }
      forall k | 0 <= k < |ids|
        ensures !Oldest(builds, k).running
      {
        assert ids[k] == Oldest(builds, k).id;
      }
      if |ids| > 0 { assert t[a + |ids| - 1].id == ids[|ids| - 1] < t[|t| - n].id; }
      if |ids| < |builds| { assert t[a + |ids|].id == builds[|builds| - 1 - |ids|].id; }
    }
  }

  lemma DeleteKeepsReaped(t: seq<Build>, first: nat, reaped: set<nat>, ids: seq<nat>, a: nat, b: nat, p: nat)
    returns (b': nat, p': nat)
    requires Ascending(t) && IdsFrom(t, ids, a) && Starts(t, first, a) && Reaped(t, first, reaped, b, p)
    ensures Reaped(t, first, reaped + Span(t, a, a + |ids|), b', p')
  {
    hide Below, Span, Ascending;
    var c := a + |ids|;
    if first <= 1 { AboutOne(t, first); }
    if b == p {
      b', p' := a, c;
      NothingIn(t, b);
    } else {
      b', p' := if a < b then a else b, if c < p then p else c;
      SpansJoin(t, b, p, a, c);
    }
  }

  lemma NothingIn(t: seq<Build>, b: nat)
    requires b <= |t|
    ensures Span(t, b, b) == {}
  {
  }

  lemma DeleteKeepsInv(j: Job)
    requires Inv(j) && Enabled(j, Delete)
    ensures Inv(Do(j, Delete))
  {
    hide Below, Reaped, Starts, Span;
    var t, ids, u := j.builds, j.reaper.ids, Do(j, Delete);
    var a: nat :| IdsFrom(t, ids, a) && Starts(t, j.first, a);
    var b: nat, p: nat :| Reaped(t, j.first, j.reaped, b, p);
    DeletedIds(t, ids, a);
    var b', p' := DeleteKeepsReaped(t, j.first, j.reaped, ids, a, b, p);
    assert u.reaped == j.reaped + Span(t, a, a + |ids|);
    assert forall x | x in ids :: x in u.reaped;
  }

  lemma SpansJoin(t: seq<Build>, b: nat, p: nat, a: nat, c: nat)
    requires a <= p <= |t| && b <= c <= |t|
    ensures Span(t, b, p) + Span(t, a, c) == Span(t, if a < b then a else b, if c < p then p else c)
  {
    var all := Span(t, if a < b then a else b, if c < p then p else c);
    forall x | x in all
      ensures x in Span(t, b, p) + Span(t, a, c)
    {
      var i :| (if a < b then a else b) <= i < (if c < p then p else c) && t[i].id == x;
    }
  }

  lemma DeletedIds(t: seq<Build>, ids: seq<nat>, a: nat)
    requires IdsFrom(t, ids, a)
    ensures (set x | x in ids) == Span(t, a, a + |ids|)
  {
    forall i | a <= i < a + |ids|
      ensures t[i].id in ids
    {
      assert t[i].id == ids[i - a];
    }
    forall x | x in ids
      ensures x in Span(t, a, a + |ids|)
    {
      var k :| 0 <= k < |ids| && ids[k] == x;
      assert t[a + k].id == ids[a + k - a];
    }
  }

  lemma UpdateKeepsReaped(t: seq<Build>, first: nat, reaped: set<nat>, ids: seq<nat>, a: nat, b: nat, p: nat)
    requires Ascending(t) && IdsFrom(t, ids, a) && Starts(t, first, a) && Reaped(t, first, reaped, b, p)
    requires ids[|ids| - 1] in reaped
    ensures Reaped(t, ids[|ids| - 1] + 1, reaped, b, p) && first <= ids[|ids| - 1] + 1
  {
    hide Below, Span;
    var c := a + |ids|;
    assert t[c - 1].id == ids[c - 1 - a];
    BelowIs(t, t[c - 1].id + 1, c);
    IndexOf(t, reaped, b, p, c - 1);
    BelowSplits(t, first);
  }

  lemma UpdateKeepsInv(j: Job)
    requires Inv(j) && Enabled(j, Update)
    ensures Inv(Do(j, Update)) && j.first <= Do(j, Update).first
  {
    hide Reaped, Below, Starts, Span;
    var t, ids := j.builds, j.reaper.ids;
    var a: nat :| IdsFrom(t, ids, a) && Starts(t, j.first, a) && forall x | x in ids :: x in j.reaped;
    var b: nat, p: nat :| Reaped(t, j.first, j.reaped, b, p);
    assert ids[|ids| - 1] in ids;
    UpdateKeepsReaped(t, j.first, j.reaped, ids, a, b, p);
  }

  lemma IndexOf(t: seq<Build>, reaped: set<nat>, b: nat, p: nat, i: nat)
    requires Ascending(t) && b <= p <= |t| && reaped == Span(t, b, p) && i < |t|
    ensures t[i].id in reaped <==> b <= i < p
  {
    if t[i].id in reaped {
      var k :| b <= k < p && t[k].id == t[i].id;
    }
  }

  lemma StepKeepsInv(j: Job, s: Step)
    requires Inv(j) && Enabled(j, s)
    ensures Inv(Do(j, s)) && j.first <= Do(j, s).first
  {
    hide Inv;
    match s
    case NewBuild(_) => BuildsKeepInv(j, s);
    case FinishBuild(_) => BuildsKeepInv(j, s);
    case ListAll(read) => ListAllKeepsInv(j, read);
    case ListRetained(read) => ListRetainedKeepsInv(j, read);
    case Delete => DeleteKeepsInv(j);
    case Update => UpdateKeepsInv(j);
    case _ => ListKeepsInv(j, s);
  }

  lemma {:induction false} RunKeepsInv(j: Job, steps: seq<Step>)
    requires Inv(j) && Allowed(j, steps)
    ensures Inv(Exec(j, steps)) && j.first <= Exec(j, steps).first
    decreases |steps|
  {
    hide Inv, Do, Enabled;
    if steps != [] {
      StepKeepsInv(j, steps[0]);
      RunKeepsInv(Do(j, steps[0]), steps[1..]);
    }
  }

  // ---- Builds by the run's steps ---------------------------------------------------------

  /** The ids of the builds the run creates, in order. */
  function NewIds(steps: seq<Step>): seq<nat>
  {
    if steps == [] then [] else (if steps[0].NewBuild? then [steps[0].id] else []) + NewIds(steps[1..])
  }

  lemma StepBuilds(j: Job, s: Step)
    requires Enabled(j, s)
    ensures Ids(Do(j, s).builds) == Ids(j.builds) + NewIds([s])
    ensures forall i | 0 <= i < |j.builds| ::
      Do(j, s).builds[i].running <==> j.builds[i].running && s != FinishBuild(i)
    ensures forall i | |j.builds| <= i < |Do(j, s).builds| :: Do(j, s).builds[i].running
  {
    assert [s][1..] == [];
  }

  /** The builds are those of before and those created since, in order; a build is running
      exactly when it was, or is new, and no step finished it. */
  lemma {:induction false} BuildsAreOfTheRun(j: Job, steps: seq<Step>)
    requires Allowed(j, steps)
    ensures Ids(Exec(j, steps).builds) == Ids(j.builds) + NewIds(steps)
    ensures forall i | 0 <= i < |Exec(j, steps).builds| ::
      Exec(j, steps).builds[i].running <==>
      (i < |j.builds| ==> j.builds[i].running) && FinishBuild(i) !in steps
    decreases |steps|
  {
    hide Do, Enabled;
    if steps != [] {
      var u := Do(j, steps[0]);
      StepBuilds(j, steps[0]);
      assert steps == [steps[0]] + steps[1..];
      NewIdsStep(steps[0], steps[1..]);
      BuildsAreOfTheRun(u, steps[1..]);
      var w := Exec(j, steps);
      assert |Ids(w.builds)| == |w.builds| && |Ids(u.builds)| == |u.builds|;
      NotBefore(j, steps[0]);
    }
  }

  lemma NewIdsStep(s: Step, rest: seq<Step>)
    ensures NewIds([s] + rest) == NewIds([s]) + NewIds(rest)
  {
    assert ([s] + rest)[1..] == rest && [s][1..] == [];
  }

  lemma NotBefore(j: Job, s: Step)
    requires Enabled(j, s)
    ensures s.FinishBuild? ==> s.index < |j.builds|
  {
  }

  // ---- Putting runs together -----------------------------------------------------------

  lemma {:induction false} Chain(j: Job, first: seq<Step>, second: seq<Step>) returns (steps: seq<Step>)
    requires Allowed(j, first) && Allowed(Exec(j, first), second)
    ensures steps == first + second && Allowed(j, steps) && Exec(j, steps) == Exec(Exec(j, first), second)
    decreases |first|
  {
    hide Do, Enabled;
    if first == [] {
      steps := second;
    } else {
      var rest := Chain(Do(j, first[0]), first[1..], second);
      steps := [first[0]] + rest;
      assert steps[1..] == rest && steps == first + second;
    }
  }

  lemma Nothing(j: Job) returns (steps: seq<Step>)
    ensures steps == [] && Allowed(j, steps) && Exec(j, steps) == j
  {
    steps := [];
  }

  lemma Cons(j: Job, s: Step, rest: seq<Step>) returns (steps: seq<Step>)
    requires Enabled(j, s) && Allowed(Do(j, s), rest)
    ensures steps == [s] + rest && Allowed(j, steps) && Exec(j, steps) == Exec(Do(j, s), rest)
  {
    steps := [s] + rest;
    assert steps[1..] == rest;
  }

  /** A reaper lists with these reads, on a table at rest, and then stands where its
      decision leaves it. */
  lemma Looks(j: Job, batch: nat, retain: nat, read0: nat, read1: nat, read2: nat) returns (steps: seq<Step>)
    requires j.reaper.Idle? && retain > 0
    ensures steps == [Load(batch, retain), ListOne(read0), ListAll(read1), ListRetained(read2)] && Allowed(j, steps)
    ensures
      var builds := AllOf(j.builds, j.first, batch, OneOf(j.builds, j.first, read0), read1);
      var ids := Decide(j.builds, retain, builds, read2);
      Exec(j, steps) == j.(reaper := if ids == [] then Idle else Decided(j.first, ids))
  {
    hide Allowed, Exec, OneOf, AllOf, Decide;
    var j1 := Do(j, Load(batch, retain));
    var j2 := Do(j1, ListOne(read0));
    var j3 := Do(j2, ListAll(read1));
    steps := Nothing(Do(j3, ListRetained(read2)));
    steps := Cons(j3, ListRetained(read2), steps);
    steps := Cons(j2, ListAll(read1), steps);
    steps := Cons(j1, ListOne(read0), steps);
    steps := Cons(j, Load(batch, retain), steps);
  }
}
