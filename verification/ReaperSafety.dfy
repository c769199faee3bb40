/**
 * What holds of reaped builds over every run, and exactly when: below
 * first_logged_build_id everything is reaped, nothing is reaped above it, and nothing
 * that is to be retained is reaped.
 */
module ReaperSafety {
  import opened Pages
  import opened Reaper
  import opened ReaperRuns

  /** Over every run, wherever it stops and whatever listing breaks: a reaped build has
      finished; of the builds below a reaped one or below first_logged_build_id all but
      build 1 are reaped; and that id never decreases. */
  lemma ReaperIsSafe(j: Job, steps: seq<Step>, i: nat)
    requires Inv(j) && Allowed(j, steps) && i < |Exec(j, steps).builds|
    ensures var u := Exec(j, steps);
      && (u.builds[i].id in u.reaped ==> !u.builds[i].running)
      && (forall k | 0 <= k < i && u.builds[i].id in u.reaped && u.builds[k].id > 1 :: u.builds[k].id in u.reaped)
      && (1 < u.builds[i].id < u.first ==> u.builds[i].id in u.reaped)
      && j.first <= u.first
  {
    hide Allowed, Exec, ReaperOk;
    RunKeepsInv(j, steps);
    InvMeans(Exec(j, steps), i);
  }

  lemma InvMeans(u: Job, i: nat)
    requires Inv(u) && i < |u.builds|
    ensures u.builds[i].id in u.reaped ==> !u.builds[i].running
    ensures forall k | 0 <= k < i && u.builds[i].id in u.reaped && u.builds[k].id > 1 :: u.builds[k].id in u.reaped
    ensures 1 < u.builds[i].id < u.first ==> u.builds[i].id in u.reaped
  {
    hide ReaperOk, Span;
    var b: nat, p: nat :| Reaped(u.builds, u.first, u.reaped, b, p);
    BelowSplits(u.builds, u.first);
    forall k | 0 <= k < |u.builds|
      ensures u.builds[k].id in u.reaped <==> b <= k < p
    {
      IndexOf(u.builds, u.reaped, b, p, k);
    }
  }

  // ---- Below first_logged_build_id everything is reaped --------------------------------

  predicate BelowIsReaped(j: Job)
  {
    forall i | 0 <= i < |j.builds| && j.builds[i].id < j.first :: j.builds[i].id in j.reaped
  }

  /** The update of a reaper that did not list build 1, because its listing broke or came
      before the build, while the build is there and not reaped. */
  predicate SkipsOne(j: Job, s: Step)
    requires Enabled(j, s)
  {
    && s == Update && j.reaper.first <= 1 && j.reaper.ids[0] != 1
    && j.builds != [] && j.builds[0].id == 1 && 1 !in j.reaped
  }

  predicate Skips(j: Job, steps: seq<Step>)
    requires Allowed(j, steps)
    decreases |steps|
  {
    steps != [] && (SkipsOne(j, steps[0]) || Skips(Do(j, steps[0]), steps[1..]))
  }

  /** Only build 1 matters. */
  lemma BelowIsAboutOne(j: Job)
    requires Inv(j)
    ensures BelowIsReaped(j) <==> j.first <= 1 || j.builds == [] || j.builds[0].id != 1 || 1 in j.reaped
  {
    hide Inv;
    forall i | 0 <= i < |j.builds|
      ensures 1 < j.builds[i].id < j.first ==> j.builds[i].id in j.reaped
    {
      InvMeans(j, i);
    }
    Positive(j);
  }

  lemma Positive(j: Job)
    requires Inv(j)
    ensures forall i | 0 <= i < |j.builds| :: j.builds[i].id > 0 && (j.builds[i].id == 1 ==> i == 0)
    ensures j.first > 1 ==> j.builds != []
  {
  }

  lemma UpdateMoves(j: Job)
    requires Inv(j) && Enabled(j, Update)
    ensures Do(j, Update).first > 1 && j.reaper.first == j.first && j.reaper.ids[0] in j.reaped
  {
    hide Reaped, Below;
    var a: nat :| IdsFrom(j.builds, j.reaper.ids, a) && forall x | x in j.reaper.ids :: x in j.reaped;
    var ids := j.reaper.ids;
    assert j.builds[a + |ids| - 1].id == ids[|ids| - 1];
  }

  /** Past build 1 it is never considered again. */
  lemma DeleteSparesOne(j: Job)
    requires Inv(j) && Enabled(j, Delete) && j.first > 1
    ensures 1 in Do(j, Delete).reaped <==> 1 in j.reaped
  {
    hide Reaped, Ascending;
    var t, ids := j.builds, j.reaper.ids;
    var a: nat :| IdsFrom(t, ids, a) && Starts(t, j.first, a);
    AboveFirst(j, ids, a);
  }

  lemma AboveFirst(j: Job, ids: seq<nat>, a: nat)
    requires Inv(j) && IdsFrom(j.builds, ids, a) && Starts(j.builds, j.first, a)
    ensures forall x | x in ids :: x >= j.first
    ensures forall x | x in ids :: x <= ids[|ids| - 1]
  {
    hide Reaped, ReaperOk;
    BelowSplits(j.builds, j.first);
    forall x | x in ids
      ensures x >= j.first && x <= ids[|ids| - 1]
    {
      var k :| 0 <= k < |ids| && ids[k] == x;
      assert j.builds[a + k].id == ids[a + k - a] && j.builds[a + |ids| - 1].id == ids[a + |ids| - 1 - a];
    }
  }

  lemma BelowByStep(j: Job, s: Step)
    requires Inv(j) && Enabled(j, s)
    ensures BelowIsReaped(Do(j, s)) <==> BelowIsReaped(j) && !SkipsOne(j, s)
  {
    hide Inv, BelowIsReaped;
    var u := Do(j, s);
    StepKeepsInv(j, s);
    BelowIsAboutOne(j);
    BelowIsAboutOne(u);
    Positive(j);
    Positive(u);
    if s.Update? { UpdateMoves(j); }
    if s.Delete? && j.first > 1 { DeleteSparesOne(j); }
    if s.NewBuild? && j.builds != [] { assert u.builds[0] == j.builds[0]; }
  }

  /** Every build below first_logged_build_id is reaped exactly when no reaper skipped
      build 1. */
  lemma {:induction false} BelowIsReapedIff(j: Job, steps: seq<Step>)
    requires Inv(j) && Allowed(j, steps)
    ensures BelowIsReaped(Exec(j, steps)) <==> BelowIsReaped(j) && !Skips(j, steps)
    decreases |steps|
  {
    hide Inv, Do, Enabled, BelowIsReaped, SkipsOne;
    if steps != [] {
      StepKeepsInv(j, steps[0]);
      BelowByStep(j, steps[0]);
      BelowIsReapedIff(Do(j, steps[0]), steps[1..]);
    }
  }

  // ---- Nothing is reaped above first_logged_build_id -----------------------------------

  predicate ReapedIsBelow(j: Job)
  {
    forall x | x in j.reaped :: x < j.first
  }

  function Last(ids: seq<nat>): nat
    requires ids != []
  {
    ids[|ids| - 1]
  }

  /** How far first_logged_build_id has to move for deletes whose update is still due; 0
      if there are none. A reaper that stops in between leaves it to later ones. */
  function DebtAfter(debt: nat, j: Job, s: Step): nat
    requires Enabled(j, s)
  {
    match s
    case Delete => if j.reaper.ids != [] && Last(j.reaper.ids) >= debt then Last(j.reaper.ids) + 1 else debt
    case Update => if Last(j.reaper.ids) + 1 >= debt then 0 else debt
    case _ => debt
  }

  function Debt(debt: nat, j: Job, steps: seq<Step>): nat
    requires Allowed(j, steps)
    decreases |steps|
  {
    if steps == [] then debt else Debt(DebtAfter(debt, j, steps[0]), Do(j, steps[0]), steps[1..])
  }

  predicate DebtOk(debt: nat, j: Job)
  {
    if debt == 0 then ReapedIsBelow(j)
    else debt > j.first && debt - 1 in j.reaped && forall x | x in j.reaped :: x < debt
  }

  lemma StepKeepsDebtOk(debt: nat, j: Job, s: Step)
    requires Inv(j) && DebtOk(debt, j) && Enabled(j, s)
    ensures DebtOk(DebtAfter(debt, j, s), Do(j, s))
  {
    hide Reaped, Below, Ascending;
    if s.Delete? || s.Update? {
      var ids := j.reaper.ids;
      var a: nat :| IdsFrom(j.builds, ids, a) && Starts(j.builds, j.first, a) &&
        (s.Update? ==> forall x | x in ids :: x in j.reaped);
      AboveFirst(j, ids, a);
      assert Last(ids) in ids;
    }
  }

  lemma {:induction false} RunKeepsDebtOk(debt: nat, j: Job, steps: seq<Step>)
    requires Inv(j) && DebtOk(debt, j) && Allowed(j, steps)
    ensures DebtOk(Debt(debt, j, steps), Exec(j, steps))
    decreases |steps|
  {
    hide Inv, Do, Enabled, DebtOk, DebtAfter;
    if steps != [] {
      StepKeepsInv(j, steps[0]);
      StepKeepsDebtOk(debt, j, steps[0]);
      RunKeepsDebtOk(DebtAfter(debt, j, steps[0]), Do(j, steps[0]), steps[1..]);
    }
  }

  /** Every reaped build is below first_logged_build_id exactly when every delete was
      followed by an update as far as it went. */
  lemma ReapedIsBelowIff(j: Job, steps: seq<Step>)
    requires Inv(j) && ReapedIsBelow(j) && Allowed(j, steps)
    ensures ReapedIsBelow(Exec(j, steps)) <==> Debt(0, j, steps) == 0
  {
    RunKeepsDebtOk(0, j, steps);
  }

  // ---- Retained builds -------------------------------------------------------------------

  /** No reaped build is among the newest `retain`. */
  predicate Safe(j: Job, retain: nat)
  {
    forall i | 0 <= i < |j.builds| && j.builds[i].id in j.reaped :: i < Keep(j.builds, retain)
  }

  /** The reaper keeps at least so many, and what it has decided on is not among them. */
  predicate Mindful(j: Job, retain: nat)
  {
    match j.reaper
    case Idle => true
    case Loaded(_, _, r) => r >= retain
    case OneListed(_, _, r, _) => r >= retain
    case AllListed(_, r, _) => r >= retain
    case Decided(_, ids) => forall i | 0 <= i < |j.builds| && j.builds[i].id in ids :: i < Keep(j.builds, retain)
    case Deleted(_, ids) => true
  }

  /** The configuration asks for at least so many, and the retained builds are read to
      the end. */
  predicate Careful(j: Job, s: Step, retain: nat)
    requires Enabled(j, s)
  {
    (s.Load? ==> s.retain == 0 || s.retain >= retain) && (s.ListRetained? ==> s.read >= j.reaper.retain)
  }

  predicate CarefulRun(j: Job, steps: seq<Step>, retain: nat)
    requires Allowed(j, steps)
    decreases |steps|
  {
    steps == [] || (Careful(j, steps[0], retain) && CarefulRun(Do(j, steps[0]), steps[1..], retain))
  }

  /** What is decided on lies from `a` on, so many builds as there are ids. */
  lemma DecidedAre(t: seq<Build>, ids: seq<nat>, a: nat)
    requires Ascending(t) && IdsFrom(t, ids, a)
    ensures forall i | 0 <= i < |t| :: t[i].id in ids <==> a <= i < a + |ids|
  {
    forall i | 0 <= i < |t|
      ensures t[i].id in ids <==> a <= i < a + |ids|
    {
      if t[i].id in ids {
        var k :| 0 <= k < |ids| && ids[k] == t[i].id;
        assert t[a + k].id == ids[a + k - a];
      }
      if a <= i < a + |ids| { assert t[i].id == ids[i - a]; }
    }
  }

  lemma DecisionIsMindful(j: Job, read: nat, retain: nat)
    requires Inv(j) && Mindful(j, retain) && Enabled(j, ListRetained(read)) && read >= j.reaper.retain
    ensures Mindful(Do(j, ListRetained(read)), retain)
  {
    hide Reaped, Below, Pick, Decide;
    var t, r := j.builds, j.reaper;
    var a: nat :| ListedFrom(t, r.considered, a) && Starts(t, r.first, a);
    DecidedFrom(t, r.considered, a, r.retain, read);
    var ids := Decide(t, r.retain, r.considered, read);
    if ids != [] { DecidedAre(t, ids, a); }
  }

  /** New builds only move the boundary up. */
  lemma BuildsKeepSafe(j: Job, s: Step, retain: nat)
    requires Safe(j, retain) && Mindful(j, retain) && Enabled(j, s) && (s.NewBuild? || s.FinishBuild?)
    requires Inv(j)
    ensures Safe(Do(j, s), retain) && Mindful(Do(j, s), retain)
  {
    hide ReaperOk;
    var t, u := j.builds, Do(j, s).builds;
    assert Keep(t, retain) <= Keep(u, retain);
    assert forall i | 0 <= i < |t| :: u[i].id == t[i].id;
    if s.NewBuild? { NewIsNowhere(j, s.id); }
  }

  lemma DecidedIds(t: seq<Build>, ids: seq<nat>, a: nat)
    requires IdsFrom(t, ids, a)
    ensures forall x | x in ids :: exists b :: b in t && b.id == x
  {
    forall x | x in ids
      ensures exists b :: b in t && b.id == x
    {
      var k :| 0 <= k < |ids| && ids[k] == x;
      assert t[a + k] in t && t[a + k].id == ids[a + k - a];
    }
  }

  lemma NewIsNowhere(j: Job, id: nat)
    requires Inv(j) && Enabled(j, NewBuild(id))
    ensures id !in j.reaped && (j.reaper.Decided? ==> id !in j.reaper.ids)
  {
    var t := j.builds;
    var b: nat, p: nat :| Reaped(t, j.first, j.reaped, b, p);
    assert forall i | 0 <= i < |t| :: t[i] in t;
    if j.reaper.Decided? {
      var a: nat :| IdsFrom(t, j.reaper.ids, a);
      DecidedIds(t, j.reaper.ids, a);
    }
  }

  lemma StepKeepsSafe(j: Job, s: Step, retain: nat)
    requires Inv(j) && Safe(j, retain) && Mindful(j, retain) && Enabled(j, s) && Careful(j, s, retain)
    ensures Safe(Do(j, s), retain) && Mindful(Do(j, s), retain)
  {
    hide Inv;
    if s.NewBuild? || s.FinishBuild? {
      BuildsKeepSafe(j, s, retain);
    } else if s.ListRetained? {
      DecisionIsMindful(j, s.read, retain);
    }
  }

  /** If every configuration asks for at least so many and every list of retained builds
      is read to the end, none of the newest so many is ever reaped. */
  lemma {:induction false} CarefulIsSafe(j: Job, steps: seq<Step>, retain: nat)
    requires Inv(j) && Safe(j, retain) && Mindful(j, retain) && Allowed(j, steps) && CarefulRun(j, steps, retain)
    ensures Safe(Exec(j, steps), retain)
    decreases |steps|
  {
    hide Inv, Do, Enabled, Safe, Mindful, Careful;
    if steps != [] {
      StepKeepsInv(j, steps[0]);
      StepKeepsSafe(j, steps[0], retain);
      CarefulIsSafe(Do(j, steps[0]), steps[1..], retain);
    }
  }

  /** The list of retained builds breaks, or is short, at `n > 0` builds; and the oldest
      build that is to be retained, or the first considered if that is newer, is before
      those, and had finished when listed like all considered before it. */
  predicate Overruns(j: Job, read: nat)
    requires j.reaper.AllListed?
  {
    var t, builds, n := j.builds, j.reaper.considered, Min(|j.builds|, Min(j.reaper.retain, read));
    && builds != [] && n > 0
    && var a := Below(t, builds[|builds| - 1].id);
       var q := if a < Keep(t, j.reaper.retain) then Keep(t, j.reaper.retain) else a;
       q < a + |builds| && q < |t| - n && forall k | 0 <= k <= q - a :: !Oldest(builds, k).running
  }

  /** The walk passes `q` exactly when `q` is considered and before the retained builds,
      and everything up to it had finished. */
  lemma PassesIff(t: seq<Build>, builds: seq<Build>, a: nat, retain: nat, read: nat, q: nat)
    requires Ascending(t) && ListedFrom(t, builds, a) && a <= q
    ensures var ids, n := Decide(t, retain, builds, read), Min(|t|, Min(retain, read));
      a + |ids| > q <==>
      n > 0 && q < a + |builds| && q < |t| - n && forall k | 0 <= k <= q - a :: !Oldest(builds, k).running
  {
    hide Decide, ListedFrom, IdsFrom, Ascending;
    DecidedFrom(t, builds, a, retain, read);
  }

  lemma DecisionIsMindfulIff(j: Job, read: nat)
    requires Inv(j) && Enabled(j, ListRetained(read))
    ensures Mindful(Do(j, ListRetained(read)), j.reaper.retain) <==> !Overruns(j, read)
  {
    hide Reaped, Below, Decide, IdsFrom, Oldest;
    var t, r := j.builds, j.reaper;
    var keep, builds := Keep(t, r.retain), r.considered;
    var a: nat :| ListedFrom(t, builds, a) && Starts(t, r.first, a);
    var q := if a < keep then keep else a;
    var ids := Decide(t, r.retain, builds, read);
    DecidedFrom(t, builds, a, r.retain, read);
    if ids != [] {
      DecidedAre(t, ids, a);
      assert a + |ids| > q ==> t[q].id in ids;
    }
    PassesIff(t, builds, a, r.retain, read, q);
    if builds != [] {
      assert t[a].id == builds[|builds| - 1].id;
      BelowIs(t, t[a].id, a);
    }
  }

  /** With later lists read to the end, one list of retained builds is safe in every
      continuation exactly when it does not overrun. */
  lemma RetainedIsSafeIff(j: Job, read: nat)
    requires Inv(j) && Enabled(j, ListRetained(read)) && Safe(j, j.reaper.retain)
    ensures var u, retain := Do(j, ListRetained(read)), j.reaper.retain;
      !Overruns(j, read) <==>
      forall steps | Allowed(u, steps) && CarefulRun(u, steps, retain) :: Safe(Exec(u, steps), retain)
  {
    hide Inv, Overruns, Allowed, Exec, CarefulRun, Decide;
    var u, retain := Do(j, ListRetained(read)), j.reaper.retain;
    DecisionIsMindfulIff(j, read);
    StepKeepsInv(j, ListRetained(read));
    assert Safe(u, retain);
    if Overruns(j, read) {
      DeleteAtOnce(u, retain);
    } else {
      forall steps | Allowed(u, steps) && CarefulRun(u, steps, retain)
        ensures Safe(Exec(u, steps), retain)
      {
        CarefulIsSafe(u, steps, retain);
      }
    }
  }

  lemma DeleteAtOnce(u: Job, retain: nat)
    requires u.reaper.Idle? || u.reaper.Decided?
    requires !Mindful(u, retain)
    ensures var steps := [Delete]; Allowed(u, steps) && CarefulRun(u, steps, retain) && !Safe(Exec(u, steps), retain)
  {
    var v := Do(u, Delete);
    var i :| 0 <= i < |u.builds| && u.builds[i].id in u.reaper.ids && i >= Keep(u.builds, retain);
    assert v.builds[i].id in v.reaped;
    assert [Delete][1..] == [];
    assert Allowed(v, []) && Exec(v, []) == v && CarefulRun(v, [], retain);
  }

  // ---- Each of the three happens -------------------------------------------------------

  /** A run of four steps and a delete, from any job at rest with an eligible build, that
      stops before the update: a build is reaped and not below first_logged_build_id. */
  lemma StopBeforeUpdate(j: Job, batch: nat, retain: nat) returns (steps: seq<Step>)
    requires Inv(j) && j.reaper.Idle? && retain > 0
    requires Below(j.builds, j.first) < Reached(j.builds, j.first, batch, retain)
    ensures Allowed(j, steps) && Exec(j, steps).reaper.Idle?
    ensures var x := j.builds[Below(j.builds, j.first)].id; x in Exec(j, steps).reaped && x >= Exec(j, steps).first
  {
    hide Allowed, Exec, Reached, OneOf, AllOf, Decide;
    AtRest(j.builds, 1, batch, retain, j.first, batch, retain);
    BelowSplits(j.builds, j.first);
    steps := Looks(j, batch, retain, 1, batch, retain);
    var j1 := Exec(j, steps);
    assert j1.reaper.ids[0] == j.builds[Below(j.builds, j.first)].id;
    var j2 := Do(j1, Delete);
    var end := Nothing(Do(j2, Stop));
    end := Cons(j2, Stop, end);
    end := Cons(j1, Delete, end);
    steps := Chain(j, steps, end);
  }

  /** The listing of build 1 breaks and the next build is reaped: build 1 is below
      first_logged_build_id and never reaped. */
  lemma BuildOneIsSkipped(j: Job, retain: nat) returns (steps: seq<Step>)
    requires Inv(j) && j.reaper.Idle? && j.first <= 1 && 1 !in j.reaped
    requires 1 < Keep(j.builds, retain) && j.builds[0].id == 1 && !j.builds[1].running && retain > 0
    ensures Allowed(j, steps)
    ensures var u := Exec(j, steps); u.builds == j.builds && u.first > 1 && 1 !in u.reaped
  {
    hide Allowed, Exec, OneOf, AllOf, Decide;
    var t := j.builds;
    steps := Looks(j, 1, retain, 0, 1, retain);
    OneIs(t, j.first, 0);
    var m, hi := AllIs(t, j.first, 1, [], 1);
    AboutOne(t, j.first);
    var builds := AllOf(t, j.first, 1, [], 1);
    ReversedAll(t[1..2]);
    assert builds == [t[1]];
    OneDecided(t, 1, retain, retain);
    var end := DeletesAndUpdates(Exec(j, steps));
    steps := Chain(j, steps, end);
  }

  lemma DeletesAndUpdates(j: Job) returns (steps: seq<Step>)
    requires j.reaper.Decided? && j.reaper.ids != []
    ensures steps == [Delete, Update] && Allowed(j, steps)
    ensures Exec(j, steps) ==
      j.(first := Last(j.reaper.ids) + 1, reaped := j.reaped + (set x | x in j.reaper.ids), reaper := Idle)
  {
    hide Allowed, Exec;
    var j1 := Do(j, Delete);
    steps := Nothing(Do(j1, Update));
    steps := Cons(j1, Update, steps);
    steps := Cons(j, Delete, steps);
  }

  /** A look at one build takes the oldest one not below `first`. */
  lemma OneLook(t: seq<Build>, first: nat)
    requires Ascending(t) && Below(t, first) < |t|
    ensures AllOf(t, first, 1, OneOf(t, first, 1), 1) == [t[Below(t, first)]]
  {
    hide OneOf, AllOf, Below, Reversed;
    var a := Below(t, first);
    RestIsConsidered(t, 1, 1, first, 1);
    if first <= 1 { AboutOne(t, first); }
    ReversedAll(t[a..a + 1]);
  }

  /** A finished build that is the only one considered is taken if it is before those
      read as retained. */
  lemma OneDecided(t: seq<Build>, a: nat, retain: nat, read: nat)
    requires Ascending(t) && 0 < Min(retain, read) <= |t| && a < |t| - Min(retain, read) && !t[a].running
    ensures Decide(t, retain, [t[a]], read) == [t[a].id]
  {
    hide Decide;
    DecidedFrom(t, [t[a]], a, retain, read);
  }

  /** The list of retained builds breaks after its first row, and the oldest build that
      was to be retained is reaped. */
  lemma RetainedIsReaped(j: Job, retain: nat) returns (steps: seq<Step>)
    requires Inv(j) && j.reaper.Idle? && retain > 1 && |j.builds| > 1
    requires Below(j.builds, j.first) == Keep(j.builds, retain) && !j.builds[Keep(j.builds, retain)].running
    ensures Allowed(j, steps)
    ensures var u, keep := Exec(j, steps), Keep(j.builds, retain); u.builds == j.builds && j.builds[keep].id in u.reaped
  {
    hide Allowed, Exec, OneOf, AllOf, Decide, Below, Inv;
    var t, a := j.builds, Below(j.builds, j.first);
    InOrder(j);
    steps := Looks(j, 1, retain, 1, 1, 1);
    OneLook(t, j.first);
    OneDecided(t, a, retain, 1);
    var j1 := Exec(j, steps);
    var end := Nothing(Do(j1, Delete));
    end := Cons(j1, Delete, end);
    steps := Chain(j, steps, end);
  }

  // ---- A quiet job -----------------------------------------------------------------------

  /** A job at rest after an unbroken run. */
  function AfterRound(j: Job, batch: nat, retain: nat): Job
  {
    var a, r := Below(j.builds, j.first), Reached(j.builds, j.first, batch, retain);
    if a == r then j else j.(first := j.builds[r - 1].id + 1, reaped := j.reaped + Span(j.builds, a, r))
  }

  lemma RoundIsRun(j: Job, batch: nat, retain: nat) returns (steps: seq<Step>)
    requires Inv(j) && j.reaper.Idle? && retain > 0
    ensures Allowed(j, steps) && Exec(j, steps) == AfterRound(j, batch, retain)
    ensures [Load(batch, retain), ListOne(1), ListAll(batch), ListRetained(retain)] <= steps && |steps| <= 6
  {
    hide Allowed, Exec, Reached, OneOf, AllOf, Decide, Below, Span, Inv;
    InOrder(j);
    var t, a := j.builds, Below(j.builds, j.first);
    var r := Reached(t, j.first, batch, retain);
    AtRest(t, 1, batch, retain, j.first, batch, retain);
    steps := Looks(j, batch, retain, 1, batch, retain);
    var ids := Ids(t[a..r]);
    if a < r {
      SpanIs(t, a, r);
      var end := DeletesAndUpdates(Exec(j, steps));
      steps := Chain(j, steps, end);
    }
  }

  lemma SpanIs(t: seq<Build>, a: nat, r: nat)
    requires a <= r <= |t|
    ensures (set x | x in Ids(t[a..r])) == Span(t, a, r)
  {
    forall i | a <= i < r
      ensures t[i].id in Ids(t[a..r])
    {
      assert Ids(t[a..r])[i - a] == t[i].id;
    }
  }

  lemma {:induction false} StopAtMeans(t: seq<Build>, a: nat, c: nat, keep: nat)
    requires a <= c <= |t|
    ensures var b := StopAt(t, a, c, keep);
      && (forall i | a <= i < b :: i < keep && !t[i].running)
      && (b < c ==> b >= keep || t[b].running)
    decreases c - a
  {
    var b := StopAt(t, a, c, keep);
    if a < c && a < keep && !t[a].running {
      StopAtMeans(t, a + 1, c, keep);
      assert b == StopAt(t, a + 1, c, keep);
      forall i | a <= i < b
        ensures i < keep && !t[i].running
      {
        assert !t[i].running;
      }
    }
  }

  /** The end of the stretch of finished builds, outside the newest `retain`, from the
      oldest build not below first_logged_build_id. */
  function Eligible(j: Job, retain: nat): (k: nat)
    ensures k <= |j.builds|
  {
    StopAt(j.builds, Below(j.builds, j.first), |j.builds|, Keep(j.builds, retain))
  }

  /** One run reaps the next batch of that stretch. */
  lemma OneRound(j: Job, batch: nat, retain: nat)
    requires Inv(j) && j.reaper.Idle? && retain > 0 && batch > 0
    ensures var u, a := AfterRound(j, batch, retain), Below(j.builds, j.first);
      && Inv(u) && u.reaper.Idle? && u.builds == j.builds
      && a <= Below(u.builds, u.first) == Min(Eligible(j, retain), a + batch)
      && u.reaped == j.reaped + Span(j.builds, a, Below(u.builds, u.first))
      && Eligible(u, retain) == Eligible(j, retain)
  {
    hide Inv, StopAt, Below, Span, Reached, Keep;
    var t, a, keep := j.builds, Below(j.builds, j.first), Keep(j.builds, retain);
    var u, r := AfterRound(j, batch, retain), Reached(j.builds, j.first, batch, retain);
    var steps := RoundIsRun(j, batch, retain);
    RunKeepsInv(j, steps);
    InOrder(j);
    NextBatch(t, j.first, batch, retain);
    if a < r { BelowIs(t, u.first, r); } else { NothingIn(t, a); }
  }

  lemma NextBatch(t: seq<Build>, first: nat, batch: nat, retain: nat)
    requires Ascending(t) && retain > 0 && batch > 0
    ensures var a, keep := Below(t, first), Keep(t, retain);
      var r, e := Reached(t, first, batch, retain), StopAt(t, a, |t|, keep);
      a <= r == Min(e, a + batch) && StopAt(t, r, |t|, keep) == e
  {
    hide StopAt, Below;
    var a, c, keep := Below(t, first), LooksTo(t, first, batch), Keep(t, retain);
    if first <= 1 { AboutOne(t, first); }
    var e := StopAt(t, a, |t|, keep);
    StopAtMeans(t, a, |t|, keep);
    StopAtIs(t, a, c, keep, Min(e, c));
    StopAtIs(t, Min(e, c), |t|, keep, e);
  }

  lemma InOrder(j: Job)
    requires Inv(j)
    ensures Ascending(j.builds)
  {
  }

  function Rounds(j: Job, batch: nat, retain: nat, m: nat): Job
    decreases m
  {
    if m == 0 then j else Rounds(AfterRound(j, batch, retain), batch, retain, m - 1)
  }

  lemma {:induction false} ManyRounds(j: Job, batch: nat, retain: nat, m: nat)
    requires Inv(j) && j.reaper.Idle? && retain > 0 && batch > 0
    ensures var u, a := Rounds(j, batch, retain, m), Below(j.builds, j.first);
      && a <= Below(u.builds, u.first) == Min(Eligible(j, retain), a + m * batch) && u.builds == j.builds
      && u.reaped == j.reaped + Span(j.builds, a, Below(u.builds, u.first))
    decreases m
  {
    hide Inv, AfterRound, Below, Eligible, Span;
    OneRound(j, batch, retain);
    var a := Below(j.builds, j.first);
    if m == 0 {
      NothingIn(j.builds, a);
    } else {
      var v := AfterRound(j, batch, retain);
      ManyRounds(v, batch, retain, m - 1);
      var u := Rounds(v, batch, retain, m - 1);
      SpansJoin(j.builds, a, Below(v.builds, v.first), Below(v.builds, v.first), Below(u.builds, u.first));
    }
  }

  /** With nothing else going on, and wherever earlier runs stopped, once runs times batch
      cover it exactly the longest stretch of finished, unretained builds from
      first_logged_build_id on is reaped besides what was before. */
  lemma QuietJobIsReaped(j: Job, batch: nat, retain: nat, m: nat)
    requires Inv(j) && j.reaper.Idle? && retain > 0 && batch > 0
    requires Below(j.builds, j.first) + m * batch >= Eligible(j, retain)
    ensures var t, a, k := j.builds, Below(j.builds, j.first), Eligible(j, retain);
      && a <= k && Rounds(j, batch, retain, m).reaped == j.reaped + Span(t, a, k)
      && (forall i | a <= i < k :: !t[i].running && i < Keep(t, retain))
      && (k < |t| ==> k >= Keep(t, retain) || t[k].running)
  {
    hide Inv, Rounds, Below, StopAt;
    ManyRounds(j, batch, retain, m);
    StopAtMeans(j.builds, Below(j.builds, j.first), |j.builds|, Keep(j.builds, retain));
  }
}
