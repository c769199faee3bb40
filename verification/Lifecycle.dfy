/**
 * One build, and any number of ATCs that create, resume and abort it around the
 * tracking lock. Every database statement or transaction is one step; a process may
 * crash anywhere, and its lock goes with its session.
 */
module Lifecycle {
  import opened Options

  datatype Status = Pending | Started | Succeeded | Failed | Errored | Aborted

  datatype Event = StatusEvent(status: Status) | Other(payload: string)

  datatype Row = Row(status: Status, engine: bool, completed: bool)

  datatype Process =
    | Idle
    | ToStart                 // CreateBuild, before Start
    | Resuming                // Resume has the lock
    | Broken                  // unknown engine or failed lookup: about to save the error
    | BrokenSaved             // about to finish as errored
    | Running                 // the engine's Resume call
    | Ending                  // it has returned; the lock is still held
    | Notifying               // Abort without the lock
    | Aborting                // Abort with the lock
    | Marked                  // status saved as aborted
    | Unstarted               // reloaded: there is no engine

  /** `sequence` is the build's event id sequence; `starts` and `finishes` count the
      committed Start and Finish transactions. */
  datatype World = World(row: Row, log: seq<Event>, sequence: bool, lock: Option<nat>, processes: map<nat, Process>,
                         starts: nat, finishes: nat)

  datatype Step =
    | CreateBuild(p: nat)
    | StartBuild(p: nat)
    | Resume(p: nat)
    | Load(p: nat, known: bool)        // `known`: the engine and its build are found
    | SaveError(p: nat)
    | FinishErrored(p: nat)
    | RunEnds(p: nat, status: Status)
    | RunReleased(p: nat)
    | Unlock(p: nat)
    | Abort(p: nat)
    | MarkAsAborted(p: nat)
    | LoadAborted(p: nat)
    | FinishAborted(p: nat)
    | Crash(p: nat)
    | SaveEvent(payload: string)       // by any step process, tracked or left over
    | SchedulerFails                   // the build starter gives up on the build

  predicate IsFinal(s: Status)
  {
    !s.Pending? && !s.Started?
  }

  predicate IsRunning(s: Status)
  {
    s.Pending? || s.Started?
  }

  function Of(w: World, p: nat): Process
  {
    if p in w.processes then w.processes[p] else Idle
  }

  predicate HoldsLock(x: Process)
  {
    !x.Idle? && !x.ToStart? && !x.Notifying?
  }

  predicate Enabled(w: World, s: Step)
  {
    match s
    case CreateBuild(p) => Of(w, p).Idle?
    case StartBuild(p) => Of(w, p).ToStart?
    case Resume(p) => Of(w, p).Idle?
    case Load(p, _) => Of(w, p).Resuming?
    case SaveError(p) => Of(w, p).Broken?
    case FinishErrored(p) => Of(w, p).BrokenSaved?
    case RunEnds(p, status) => Of(w, p).Running? && IsFinal(status)
    case RunReleased(p) => Of(w, p).Running?
    case Unlock(p) => Of(w, p).Ending?
    case Abort(p) => Of(w, p).Idle?
    case MarkAsAborted(p) => Of(w, p).Notifying? || Of(w, p).Aborting?
    case LoadAborted(p) => Of(w, p).Marked?
    case FinishAborted(p) => Of(w, p).Unstarted?
    case Crash(p) => true
    case SaveEvent(_) => true
    case SchedulerFails => true
  }

  // ---- Transactions ------------------------------------------------------------

  function Becomes(w: World, p: nat, x: Process): World
  {
    w.(processes := w.processes[p := x])
  }

  function Leave(w: World, p: nat): World
  {
    Becomes(if HoldsLock(Of(w, p)) then w.(lock := None) else w, p, Idle)
  }

  /** Compare and set on the pending status. */
  function Start(w: World): World
  {
    if w.row.status.Pending? && w.sequence
    then w.(row := Row(Started, true, w.row.completed), log := w.log + [StatusEvent(Started)], starts := w.starts + 1)
    else w
  }

  /** Without the sequence the event cannot be saved, and all is rolled back. */
  function Finish(w: World, status: Status): World
  {
    if w.sequence
    then w.(row := w.row.(status := status, completed := true), log := w.log + [StatusEvent(status)],
            sequence := false, finishes := w.finishes + 1)
    else w
  }

  function Save(w: World, payload: string): World
  {
    if w.sequence then w.(log := w.log + [Other(payload)]) else w
  }

  function Do(w: World, s: Step): World
    requires Enabled(w, s)
  {
    match s
    case CreateBuild(p) => Becomes(w, p, ToStart)
    case StartBuild(p) => Becomes(Start(w), p, Idle)
    case Resume(p) => if w.lock.Some? then w else Becomes(w.(lock := Some(p)), p, Resuming)
    case Load(p, known) =>
      if !w.row.engine || !IsRunning(w.row.status) then Leave(w, p)
      else Becomes(w, p, if known then Running else Broken)
    case SaveError(p) =>
      if w.sequence then Becomes(Save(w, "error"), p, BrokenSaved) else Leave(w, p)
    case FinishErrored(p) => Leave(Finish(w, Errored), p)
    case RunEnds(p, status) => Becomes(Finish(w, status), p, Ending)
    case RunReleased(p) => Becomes(w, p, Ending)
    case Unlock(p) => Leave(w, p)
    case Abort(p) => if w.lock.Some? then Becomes(w, p, Notifying) else Becomes(w.(lock := Some(p)), p, Aborting)
    case MarkAsAborted(p) =>
      Becomes(w.(row := w.row.(status := Aborted)), p, if Of(w, p).Notifying? then Idle else Marked)
    case LoadAborted(p) => if w.row.engine then Leave(w, p) else Becomes(w, p, Unstarted)
    case FinishAborted(p) => Leave(Finish(w, Aborted), p)
    case Crash(p) => Leave(w, p)
    case SaveEvent(payload) => Save(w, payload)
    case SchedulerFails => Finish(w, Errored)
  }

  predicate Allowed(w: World, steps: seq<Step>)
    decreases |steps|
  {
    steps == [] || (Enabled(w, steps[0]) && Allowed(Do(w, steps[0]), steps[1..]))
  }

  function Exec(w: World, steps: seq<Step>): World
    requires Allowed(w, steps)
    decreases |steps|
  {
    if steps == [] then w else Exec(Do(w, steps[0]), steps[1..])
  }

  /** A build that has just been created. */
  const CREATED := World(Row(Pending, false, false), [], true, None, map[], 0, 0)

  // ---- The invariant -----------------------------------------------------------

  predicate IsLast(e: Event)
  {
    e.StatusEvent? && IsFinal(e.status)
  }

  predicate RowOk(w: World)
  {
    && (w.sequence <==> !w.row.completed)
    && w.finishes == (if w.row.completed then 1 else 0)
    && w.starts == (if w.row.engine then 1 else 0)
    && (w.row.status.Pending? ==> !w.row.engine && !w.row.completed)
    && (w.row.status.Started? ==> w.row.engine && !w.row.completed)
  }

  predicate LogOk(w: World)
  {
    && (w.row.completed ==> w.log != [] && IsLast(w.log[|w.log| - 1]))
    && (w.row.completed ==> w.row.status == w.log[|w.log| - 1].status || w.row.status.Aborted?)
    && (forall i | 0 <= i < |w.log| && IsLast(w.log[i]) :: w.row.completed && i == |w.log| - 1)
  }

  predicate ProcessOk(w: World, p: nat)
  {
    var x := Of(w, p);
    && (HoldsLock(x) <==> w.lock == Some(p))
    && (x.Running? || x.Broken? || x.BrokenSaved? || x.Ending? ==> w.row.engine)
    && (x.Marked? || x.Unstarted? ==> IsFinal(w.row.status))
    && (x.Unstarted? ==> !w.row.engine)
  }

  ghost predicate Inv(w: World)
  {
    RowOk(w) && LogOk(w) && forall p: nat {:trigger ProcessOk(w, p)} :: ProcessOk(w, p)
  }

  lemma StepKeepsRow(w: World, s: Step)
    requires RowOk(w) && Enabled(w, s)
    ensures RowOk(Do(w, s))
  {
  }

  lemma StepKeepsLog(w: World, s: Step)
    requires RowOk(w) && LogOk(w) && Enabled(w, s)
    ensures LogOk(Do(w, s))
  {
  }

  predicate ByProcess(s: Step)
  {
    !s.SaveEvent? && !s.SchedulerFails?
  }

  /** The process that takes the step. */
  lemma OwnStepKeepsProcess(w: World, s: Step)
    requires Inv(w) && Enabled(w, s) && ByProcess(s)
    ensures ProcessOk(Do(w, s), s.p)
  {
    hide LogOk, RowOk;
    assert ProcessOk(w, s.p);
  }

  /** Any other process. */
  lemma OtherStepKeepsProcess(w: World, s: Step, p: nat)
    requires Inv(w) && Enabled(w, s) && ByProcess(s) && p != s.p
    ensures ProcessOk(Do(w, s), p)
  {
    hide LogOk, RowOk;
    assert ProcessOk(w, p) && ProcessOk(w, s.p);
  }

  lemma OutsideKeepsProcess(w: World, s: Step, p: nat)
    requires Inv(w) && Enabled(w, s) && !ByProcess(s)
    ensures ProcessOk(Do(w, s), p)
  {
    hide LogOk;
    assert ProcessOk(w, p);
  }

  lemma StepKeepsProcess(w: World, s: Step, p: nat)
    requires Inv(w) && Enabled(w, s)
    ensures ProcessOk(Do(w, s), p)
  {
    hide Inv, Do, Enabled, ProcessOk;
    if !ByProcess(s) {
      OutsideKeepsProcess(w, s, p);
    } else if s.p == p {
      OwnStepKeepsProcess(w, s);
    } else {
      OtherStepKeepsProcess(w, s, p);
    }
  }

  lemma StepKeepsInv(w: World, s: Step)
    requires Inv(w) && Enabled(w, s)
    ensures Inv(Do(w, s))
  {
    hide Do, Enabled, RowOk, LogOk, ProcessOk;
    StepKeepsRow(w, s);
    StepKeepsLog(w, s);
    forall p: nat { StepKeepsProcess(w, s, p); }
  }

  lemma {:induction false} RunKeepsInv(w: World, steps: seq<Step>)
    requires Inv(w) && Allowed(w, steps)
    ensures Inv(Exec(w, steps))
    decreases |steps|
  {
    hide Do, Enabled, Inv;
    if steps != [] {
      StepKeepsInv(w, steps[0]);
      RunKeepsInv(Do(w, steps[0]), steps[1..]);
    }
  }

  lemma CreatedIsOk()
    ensures Inv(CREATED)
  {
  }

  // ---- What holds of every run -------------------------------------------------

  /** At most one engine Resume call is in progress, Start succeeds at most once and
      at most one Finish commits; a final status is only ever the last event. */
  lemma AtMostOnce(steps: seq<Step>, p: nat, q: nat, i: nat)
    requires Allowed(CREATED, steps)
    ensures var w := Exec(CREATED, steps);
      && (Of(w, p).Running? && Of(w, q).Running? ==> p == q)
      && w.starts <= 1 && w.finishes <= 1
      && (i < |w.log| && IsLast(w.log[i]) <==> w.row.completed && i == |w.log| - 1)
  {
    var w := Exec(CREATED, steps);
    CreatedIsOk();
    RunKeepsInv(CREATED, steps);
    assert ProcessOk(w, p) && ProcessOk(w, q);
  }

  lemma StepAfterFinish(w: World, s: Step)
    requires Inv(w) && w.row.completed && Enabled(w, s)
    ensures Do(w, s).log == w.log && Do(w, s).row.completed
    ensures Do(w, s).row.status == w.row.status || s.MarkAsAborted?
  {
    hide LogOk, ProcessOk;
  }

  /** Once a Finish has committed, the log stays as it is forever; only a late abort
      changes the recorded status, to aborted. */
  lemma {:induction false} FinishIsFinal(w: World, steps: seq<Step>)
    requires Inv(w) && w.row.completed && Allowed(w, steps)
    ensures var u := Exec(w, steps);
      u.row.completed && u.log == w.log && u.row.status in {w.row.status, Aborted}
    decreases |steps|
  {
    hide Do, Enabled, Inv;
    if steps != [] {
      StepAfterFinish(w, steps[0]);
      StepKeepsInv(w, steps[0]);
      MarkedIsAborted(w, steps[0]);
      FinishIsFinal(Do(w, steps[0]), steps[1..]);
    }
  }

  /** The recorded status survives a finished build's further steps exactly when no
      abort is marked, or aborted is what it was. */
  lemma {:induction false} StatusStaysIff(w: World, steps: seq<Step>)
    requires Inv(w) && w.row.completed && Allowed(w, steps)
    ensures Exec(w, steps).row.status == w.row.status <==>
      w.row.status.Aborted? || forall s | s in steps :: !s.MarkAsAborted?
    decreases |steps|
  {
    hide Do, Enabled, Inv;
    if steps != [] {
      var u := Do(w, steps[0]);
      StepAfterFinish(w, steps[0]);
      StepKeepsInv(w, steps[0]);
      MarkedIsAborted(w, steps[0]);
      FinishIsFinal(u, steps[1..]);
      StatusStaysIff(u, steps[1..]);
      assert forall s | s in steps :: s == steps[0] || s in steps[1..];
    }
  }

  // ---- What is recorded --------------------------------------------------------

  /** The status a step finishes the build with. */
  function FinishesWith(s: Step): Option<Status>
  {
    match s
    case RunEnds(_, status) => Some(status)
    case FinishErrored(_) => Some(Errored)
    case SchedulerFails => Some(Errored)
    case FinishAborted(_) => Some(Aborted)
    case _ => None
  }

  predicate Ended(steps: seq<Step>)
  {
    exists s :: s in steps && FinishesWith(s).Some?
  }

  predicate AbortMarked(steps: seq<Step>)
  {
    exists s :: s in steps && s.MarkAsAborted?
  }

  predicate StartTried(steps: seq<Step>)
  {
    exists s :: s in steps && s.StartBuild?
  }

  /** The first step at which a finished build finished; only that one commits. */
  function FinishedAt(steps: seq<Step>): (k: nat)
    requires Ended(steps)
    ensures k < |steps| && FinishesWith(steps[k]).Some? && !Ended(steps[..k])
  {
    if FinishesWith(steps[0]).Some? then 0
    else
      assert Ended(steps[1..]) by {
        var s :| s in steps && FinishesWith(s).Some?;
        assert s in steps[1..];
      }
      var k := FinishedAt(steps[1..]);
      assert steps[..k + 1] == [steps[0]] + steps[1..][..k];
      k + 1
  }

  /** What a step adds to the log after the steps before it: a finished build's log is
      closed, and only a first Start without an abort before it succeeds. */
  function Adds(before: seq<Step>, s: Step): seq<Event>
  {
    if Ended(before) then []
    else if FinishesWith(s).Some? then [StatusEvent(FinishesWith(s).value)]
    else match s
      case SaveEvent(payload) => [Other(payload)]
      case SaveError(_) => [Other("error")]
      case StartBuild(_) => if StartTried(before) || AbortMarked(before) then [] else [StatusEvent(Started)]
      case _ => []
  }

  function LogOf(steps: seq<Step>): seq<Event>
  {
    if steps == [] then []
    else
      var before := steps[..|steps| - 1];
      LogOf(before) + Adds(before, steps[|steps| - 1])
  }

  /** The status the run leaves in the row. */
  function StatusOf(steps: seq<Step>): Status
  {
    if Ended(steps) then
      var k := FinishedAt(steps);
      if AbortMarked(steps[k + 1..]) then Aborted else FinishesWith(steps[k]).value
    else if AbortMarked(steps) then Aborted
    else if StartTried(steps) then Started else Pending
  }

  predicate Recorded(steps: seq<Step>, w: World)
  {
    && w.row.status == StatusOf(steps) && w.log == LogOf(steps)
    && (w.row.completed <==> Ended(steps)) && (w.sequence <==> !Ended(steps))
  }

  lemma SnocSays(before: seq<Step>, s: Step)
    ensures Ended(before + [s]) <==> Ended(before) || FinishesWith(s).Some?
    ensures AbortMarked(before + [s]) <==> AbortMarked(before) || s.MarkAsAborted?
    ensures StartTried(before + [s]) <==> StartTried(before) || s.StartBuild?
  {
    var steps := before + [s];
    assert s in steps && forall x | x in before :: x in steps;
  }

  lemma NothingBefore(steps: seq<Step>, k: nat)
    requires k <= |steps| && !Ended(steps[..k])
    ensures forall i | 0 <= i < k :: FinishesWith(steps[i]).None?
  {
    forall i | 0 <= i < k
      ensures FinishesWith(steps[i]).None?
    {
      assert steps[i] == steps[..k][i] && steps[i] in steps[..k];
    }
  }

  lemma FinishedAtIs(steps: seq<Step>, k: nat)
    requires k < |steps| && FinishesWith(steps[k]).Some? && !Ended(steps[..k])
    ensures Ended(steps) && FinishedAt(steps) == k
  {
    assert steps[k] in steps;
    NothingBefore(steps, k);
    NothingBefore(steps, FinishedAt(steps));
  }

  lemma StatusOfSnoc(before: seq<Step>, s: Step)
    ensures StatusOf(before + [s]) ==
      if s.MarkAsAborted? then Aborted
      else if Ended(before) then StatusOf(before)
      else if FinishesWith(s).Some? then FinishesWith(s).value
      else if s.StartBuild? && StatusOf(before).Pending? then Started else StatusOf(before)
  {
    hide FinishesWith;
    var steps := before + [s];
    SnocSays(before, s);
    assert s.MarkAsAborted? ==> FinishesWith(s).None? by { OnlyFinishes(s); }
    assert s.StartBuild? ==> FinishesWith(s).None? by { OnlyFinishes(s); }
    if Ended(before) {
      var k := FinishedAt(before);
      assert steps[..k] == before[..k] && steps[k] == before[k];
      FinishedAtIs(steps, k);
      assert steps[k + 1..] == before[k + 1..] + [s];
      SnocSays(before[k + 1..], s);
    } else if FinishesWith(s).Some? {
      assert steps[..|before|] == before;
      FinishedAtIs(steps, |before|);
      assert steps[|before| + 1..] == [];
    }
    if !Ended(before) { NotEndedStatus(before); }
  }

  lemma NotEndedStatus(steps: seq<Step>)
    requires !Ended(steps)
    ensures StatusOf(steps).Pending? <==> !AbortMarked(steps) && !StartTried(steps)
  {
  }

  lemma OnlyFinishes(s: Step)
    ensures s.MarkAsAborted? || s.StartBuild? ==> FinishesWith(s).None?
  {
  }

  lemma LogOfSnoc(before: seq<Step>, s: Step)
    ensures LogOf(before + [s]) == LogOf(before) + Adds(before, s)
  {
    var steps := before + [s];
    assert steps[..|steps| - 1] == before && steps[|steps| - 1] == s;
  }

  lemma StepIsRecorded(before: seq<Step>, w: World, s: Step)
    requires Recorded(before, w) && Inv(w) && Enabled(w, s)
    ensures Recorded(before + [s], Do(w, s))
  {
    hide LogOk, ProcessOk, StatusOf, LogOf, Ended, AbortMarked, StartTried;
    SnocSays(before, s);
    StatusOfSnoc(before, s);
    LogOfSnoc(before, s);
    if !Ended(before) { NotEndedStatus(before); }
  }

  lemma {:induction false} RunIsRecorded(before: seq<Step>, w: World, steps: seq<Step>)
    requires Recorded(before, w) && Inv(w) && Allowed(w, steps)
    ensures Recorded(before + steps, Exec(w, steps))
    decreases |steps|
  {
    hide Recorded, Inv, Do, Enabled;
    if steps == [] {
      assert before + steps == before;
    } else {
      StepIsRecorded(before, w, steps[0]);
      StepKeepsInv(w, steps[0]);
      RunIsRecorded(before + [steps[0]], Do(w, steps[0]), steps[1..]);
      assert before + steps == before + [steps[0]] + steps[1..];
    }
  }

  /** The log of a run, and the status in the row, follow from its steps alone. */
  lemma LogIsOfTheRun(steps: seq<Step>)
    requires Allowed(CREATED, steps)
    ensures var w := Exec(CREATED, steps);
      w.log == LogOf(steps) && w.row.status == StatusOf(steps) && (w.row.completed <==> Ended(steps))
  {
    CreatedIsOk();
    RunIsRecorded([], CREATED, steps);
    assert [] + steps == steps;
  }

  lemma EndedIsSome(steps: seq<Step>)
    requires Ended(steps)
    ensures steps != []
  {
  }

  lemma {:induction false} LogEnds(steps: seq<Step>)
    requires Ended(steps)
    ensures var log, k := LogOf(steps), FinishedAt(steps);
      log != [] && log[|log| - 1] == StatusEvent(FinishesWith(steps[k]).value)
    decreases |steps|
  {
    hide FinishesWith, Ended, FinishedAt, LogOf;
    EndedIsSome(steps);
    var before, s := steps[..|steps| - 1], steps[|steps| - 1];
    assert steps == before + [s];
    SnocSays(before, s);
    LogOfSnoc(before, s);
    if Ended(before) {
      LogEnds(before);
      var j := FinishedAt(before);
      assert steps[..j] == before[..j];
      FinishedAtIs(steps, j);
    } else {
      FinishedAtIs(steps, |before|);
    }
  }

  /** A build is completed exactly when some step of the run finishes it. The last event
      of its log is then the status the first such step names, and so is the status in
      the row, unless an abort is marked later. */
  lemma FinishRecordsItsStatus(steps: seq<Step>)
    requires Allowed(CREATED, steps)
    ensures var w := Exec(CREATED, steps);
      && (w.row.completed <==> Ended(steps))
      && (Ended(steps) ==>
            var k := FinishedAt(steps);
            && w.log != [] && w.log[|w.log| - 1] == StatusEvent(FinishesWith(steps[k]).value)
            && w.row.status == if AbortMarked(steps[k + 1..]) then Aborted else FinishesWith(steps[k]).value)
  {
    hide Allowed, Exec, LogOf, Ended;
    LogIsOfTheRun(steps);
    if Ended(steps) { LogEnds(steps); }
  }

  /** And it happens: an abort that comes after the run has ended. */
  lemma LateAbortOverwrites()
    ensures
      var steps :=
        [CreateBuild(0), StartBuild(0), Resume(0), Load(0, true), RunEnds(0, Succeeded), Abort(1), MarkAsAborted(1)];
      && Allowed(CREATED, steps)
      && var w := Exec(CREATED, steps);
         w.row.status.Aborted? && w.log == [StatusEvent(Started), StatusEvent(Succeeded)]
  {
    hide Allowed, Exec;
    var w1 := Do(CREATED, CreateBuild(0));
    var w2 := Do(w1, StartBuild(0));
    var w3 := Do(w2, Resume(0));
    var w4 := Do(w3, Load(0, true));
    var w5 := Do(w4, RunEnds(0, Succeeded));
    var w6 := Do(w5, Abort(1));
    var w7 := Do(w6, MarkAsAborted(1));
    var steps := Nothing(w7);
    steps := Cons(w6, MarkAsAborted(1), steps);
    steps := Cons(w5, Abort(1), steps);
    steps := Cons(w4, RunEnds(0, Succeeded), steps);
    steps := Cons(w3, Load(0, true), steps);
    steps := Cons(w2, Resume(0), steps);
    steps := Cons(w1, StartBuild(0), steps);
    steps := Cons(CREATED, CreateBuild(0), steps);
    assert steps ==
      [CreateBuild(0), StartBuild(0), Resume(0), Load(0, true), RunEnds(0, Succeeded), Abort(1), MarkAsAborted(1)];
  }

  lemma Nothing(w: World) returns (steps: seq<Step>)
    ensures steps == [] && Allowed(w, steps) && Exec(w, steps) == w
  {
    steps := [];
  }

  lemma Cons(w: World, s: Step, rest: seq<Step>) returns (steps: seq<Step>)
    requires Enabled(w, s) && Allowed(Do(w, s), rest)
    ensures steps == [s] + rest && Allowed(w, steps) && Exec(w, steps) == Exec(Do(w, s), rest)
  {
    steps := [s] + rest;
    assert steps[1..] == rest;
  }

  lemma MarkedIsAborted(w: World, s: Step)
    requires Enabled(w, s)
    ensures s.MarkAsAborted? ==> Do(w, s).row.status.Aborted?
  {
  }

  lemma StepKeepsUnstarted(w: World, s: Step)
    requires Inv(w) && !w.row.engine && !w.row.status.Pending? && Enabled(w, s)
    ensures !Do(w, s).row.engine && !Do(w, s).row.status.Pending?
  {
    hide LogOk, ProcessOk;
  }

  /** A build that was aborted, or finished, before Start never executes. */
  lemma {:induction false} AbortedBeforeStartNeverRuns(w: World, steps: seq<Step>, p: nat)
    requires Inv(w) && !w.row.engine && !w.row.status.Pending? && Allowed(w, steps)
    ensures Exec(w, steps).starts == 0 && !Of(Exec(w, steps), p).Running?
    decreases |steps|
  {
    hide Do, Enabled, Inv;
    if steps == [] {
      NoEngineNoRun(w, p);
    } else {
      StepKeepsUnstarted(w, steps[0]);
      StepKeepsInv(w, steps[0]);
      AbortedBeforeStartNeverRuns(Do(w, steps[0]), steps[1..], p);
    }
  }

  lemma NoEngineNoRun(w: World, p: nat)
    requires Inv(w) && !w.row.engine
    ensures w.starts == 0 && !Of(w, p).Running?
  {
    assert ProcessOk(w, p);
  }

  // ---- Handing a build over ----------------------------------------------------

  /** A running build that its process releases, or that loses its process, is run by the
      next one that resumes it. */
  lemma NextOneResumes(w: World, p: nat, q: nat, crash: bool) returns (steps: seq<Step>)
    requires Inv(w) && Of(w, p).Running? && Of(w, q).Idle? && IsRunning(w.row.status)
    ensures steps == (if crash then [Crash(p)] else [RunReleased(p), Unlock(p)]) + [Resume(q), Load(q, true)]
    ensures Allowed(w, steps) && Of(Exec(w, steps), q).Running? && !Of(Exec(w, steps), p).Running?
  {
    hide Allowed, Exec, LogOk;
    assert ProcessOk(w, p) && ProcessOk(w, q);
    var u := if crash then Do(w, Crash(p)) else Do(Do(w, RunReleased(p)), Unlock(p));
    var v := Do(u, Resume(q));
    steps := Nothing(Do(v, Load(q, true)));
    steps := Cons(v, Load(q, true), steps);
    steps := Cons(u, Resume(q), steps);
    if crash {
      steps := Cons(w, Crash(p), steps);
    } else {
      steps := Cons(Do(w, RunReleased(p)), Unlock(p), steps);
      steps := Cons(w, RunReleased(p), steps);
    }
  }

  /** An abort of a build that nobody has started or tracks finishes it as aborted; of one
      that was started it only marks it. Either way the lock is free again. */
  lemma AbortUntracked(w: World, p: nat) returns (steps: seq<Step>)
    requires Inv(w) && w.lock.None? && Of(w, p).Idle? && !w.row.completed
    ensures steps == [Abort(p), MarkAsAborted(p), LoadAborted(p)] + if w.row.engine then [] else [FinishAborted(p)]
    ensures Allowed(w, steps)
    ensures var u := Exec(w, steps);
      u.row.status.Aborted? && u.lock.None? && Of(u, p).Idle? && (u.row.completed <==> !w.row.engine)
  {
    hide Allowed, Exec, LogOk;
    assert ProcessOk(w, p);
    var w1 := Do(w, Abort(p));
    var w2 := Do(w1, MarkAsAborted(p));
    var w3 := Do(w2, LoadAborted(p));
    if w.row.engine {
      steps := Nothing(w3);
    } else {
      steps := Nothing(Do(w3, FinishAborted(p)));
      steps := Cons(w3, FinishAborted(p), steps);
    }
    steps := Cons(w2, LoadAborted(p), steps);
    steps := Cons(w1, MarkAsAborted(p), steps);
    steps := Cons(w, Abort(p), steps);
  }

  // ---- An abort nobody hears ---------------------------------------------------

  /** Aborted after Start, not finished, and no process that could finish it. */
  ghost predicate Stranded(w: World)
  {
    && w.row.status.Aborted? && w.row.engine && !w.row.completed
    && forall p: nat {:trigger Of(w, p)} :: !Of(w, p).Running? && !Of(w, p).Broken? && !Of(w, p).BrokenSaved?
  }

  lemma StepKeepsStranded(w: World, s: Step)
    requires Inv(w) && Stranded(w) && Enabled(w, s) && !s.SchedulerFails?
    ensures Stranded(Do(w, s))
  {
    hide LogOk;
    var u := Do(w, s);
    if !s.SaveEvent? { assert ProcessOk(w, s.p); }
    forall p: nat
      ensures !Of(u, p).Running? && !Of(u, p).Broken? && !Of(u, p).BrokenSaved?
    {
      assert !Of(w, p).Running? && !Of(w, p).Broken? && !Of(w, p).BrokenSaved?;
    }
  }

  /** Such a build never finishes, however often it is resumed or aborted again. */
  lemma {:induction false} StrandedForever(w: World, steps: seq<Step>)
    requires Inv(w) && Stranded(w) && Allowed(w, steps) && SchedulerFails !in steps
    ensures Stranded(Exec(w, steps))
    decreases |steps|
  {
    hide Do, Enabled, Inv, Stranded;
    if steps != [] {
      StepKeepsInv(w, steps[0]);
      StepKeepsStranded(w, steps[0]);
      StrandedForever(Do(w, steps[0]), steps[1..]);
    }
  }

  /** Whoever runs the build, or has found it broken, can still finish it. */
  lemma NotStrandedFinishes(w: World) returns (steps: seq<Step>)
    requires Inv(w) && w.row.status.Aborted? && w.row.engine && !w.row.completed && !Stranded(w)
    ensures Allowed(w, steps) && SchedulerFails !in steps && Exec(w, steps).row.completed
  {
    hide Allowed, Exec, LogOk, ProcessOk;
    var p: nat :| Of(w, p).Running? || Of(w, p).Broken? || Of(w, p).BrokenSaved?;
    if Of(w, p).Running? {
      steps := Nothing(Do(w, RunEnds(p, Aborted)));
      steps := Cons(w, RunEnds(p, Aborted), steps);
    } else {
      var u := if Of(w, p).Broken? then Do(w, SaveError(p)) else w;
      steps := Nothing(Do(u, FinishErrored(p)));
      steps := Cons(u, FinishErrored(p), steps);
      if Of(w, p).Broken? { steps := Cons(w, SaveError(p), steps); }
    }
  }

  /** A started build marked as aborted is never finished, unless the scheduler gives
      up on it, exactly when no process runs it or has found it broken. */
  lemma NeverFinishedIffStranded(w: World)
    requires Inv(w) && w.row.status.Aborted? && w.row.engine && !w.row.completed
    ensures Stranded(w) <==>
      forall steps | Allowed(w, steps) && SchedulerFails !in steps :: !Exec(w, steps).row.completed
  {
    if Stranded(w) {
      forall steps | Allowed(w, steps) && SchedulerFails !in steps
        ensures !Exec(w, steps).row.completed
      {
        StrandedForever(w, steps);
      }
    } else {
      var steps := NotStrandedFinishes(w);
    }
  }

  /** And an abort between Start and Resume gets there. */
  lemma AbortBetweenStartAndResumeStrands()
    ensures var steps := [CreateBuild(0), StartBuild(0), Abort(1), MarkAsAborted(1), LoadAborted(1)];
      Allowed(CREATED, steps) && Stranded(Exec(CREATED, steps))
  {
    var steps := [CreateBuild(0), StartBuild(0), Abort(1), MarkAsAborted(1), LoadAborted(1)];
    var w1 := Do(CREATED, CreateBuild(0));
    var w2 := Do(w1, StartBuild(0));
    var w3 := Do(w2, Abort(1));
    var w4 := Do(w3, MarkAsAborted(1));
    assert Enabled(w4, LoadAborted(1));
    assert steps[1..][1..][1..][1..] == [LoadAborted(1)];
    assert Allowed(w4, [LoadAborted(1)]);
    assert Allowed(w3, steps[1..][1..][1..]);
    assert Allowed(w2, steps[1..][1..]);
    assert Allowed(w1, steps[1..]);
  }
}
