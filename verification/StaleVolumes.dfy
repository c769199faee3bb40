/**
 * What a creator can do that takes the lock of a volume whose row has moved on since
 * it was read. Whatever state the row is in by then, the row can be gone before the
 * creator makes the volume, and the volume is left behind.
 */
module StaleVolumes {
  import opened Options
  import opened Volumes

  // ---- Runs in pieces ------------------------------------------------------------

  /** A run from `w` to `u` in which no lock is taken on a stale row. */
  ghost predicate Goes(w: World, steps: seq<Step>, u: World)
  {
    Allowed(w, steps) && FreshRun(w, steps) && Exec(w, steps) == u
  }

  lemma Stays(w: World) returns (steps: seq<Step>)
    ensures Goes(w, steps, w)
  {
    steps := [];
  }

  lemma Then(w: World, s: Step, rest: seq<Step>, u: World) returns (steps: seq<Step>)
    requires Enabled(w, s) && Fresh(w, s) && Goes(Do(w, s), rest, u)
    ensures Goes(w, steps, u) && steps == [s] + rest
  {
    steps := [s] + rest;
    assert steps[1..] == rest;
  }

  lemma {:induction false} After(w: World, first: seq<Step>, u: World, second: seq<Step>, v: World)
    returns (steps: seq<Step>)
    requires Goes(w, first, u) && Goes(u, second, v)
    ensures Goes(w, steps, v)
    decreases |first|
  {
    if first == [] {
      steps := second;
    } else {
      var rest := After(Do(w, first[0]), first[1..], u, second, v);
      steps := Then(w, first[0], rest, v);
    }
  }

  lemma One(w: World, s: Step) returns (steps: seq<Step>)
    requires Enabled(w, s) && Fresh(w, s)
    ensures Goes(w, steps, Do(w, s))
  {
    steps := [s];
    assert steps[1..] == [];
  }

  // ---- Getting rid of a row ------------------------------------------------------

  /** From `w` to `u` only rows of `v` and younger ones are gone, and the process
      `keep` is where it was. */
  ghost predicate Spares(w: World, u: World, v: nat, keep: nat)
  {
    && u.next == w.next && CreatorOf(u, keep) == CreatorOf(w, keep)
    && (forall x | x in u.rows :: x in w.rows && u.rows[x] == w.rows[x])
    && (forall x | x in w.rows && x < v :: x in u.rows)
  }

  lemma RemoveFailed(w: World, v: nat, keep: nat) returns (steps: seq<Step>, u: World)
    requires StateOf(w, v) == Some(Failed)
    ensures Goes(w, steps, u) && v !in u.rows && Spares(w, u, v, keep)
  {
    hide Goes;
    var w1 := Do(w, PickFailed(0, v));
    u := Do(w1, DeleteFailed(0));
    steps := One(w1, DeleteFailed(0));
    steps := Then(w, PickFailed(0, v), steps, u);
  }

  /** A collector that has picked a `destroying` row destroys the volume and deletes
      the row. */
  lemma FinishDestroying(w: World, v: nat, keep: nat) returns (steps: seq<Step>, u: World)
    requires StateOf(w, v) == Some(Destroying) && CollectorOf(w, 0) == GotDestroying(v)
    ensures Goes(w, steps, u) && v !in u.rows && Spares(w, u, v, keep)
  {
    hide Goes;
    var w1 := Do(w, LookupReal(0));
    if v in w.present {
      var w2 := Do(w1, DestroyReal(0, true));
      u := Do(w2, DeleteRow(0));
      steps := One(w2, DeleteRow(0));
      steps := Then(w1, DestroyReal(0, true), steps, u);
    } else {
      u := Do(w1, DeleteRow(0));
      steps := One(w1, DeleteRow(0));
    }
    steps := Then(w, LookupReal(0), steps, u);
  }

  lemma RemoveDestroying(w: World, v: nat, keep: nat) returns (steps: seq<Step>, u: World)
    requires StateOf(w, v) == Some(Destroying)
    ensures Goes(w, steps, u) && v !in u.rows && Spares(w, u, v, keep)
  {
    hide Goes;
    var w1 := Do(w, Orphan(v));
    var w2 := Do(w1, PickDestroying(0, v));
    steps, u := FinishDestroying(w2, v, keep);
    steps := Then(w1, PickDestroying(0, v), steps, u);
    steps := Then(w, Orphan(v), steps, u);
  }

  lemma MarkLeaf(w: World, v: nat, keep: nat) returns (steps: seq<Step>, u: World)
    requires StateOf(w, v) == Some(Created) && !HasChild(w, v)
    ensures Goes(w, steps, u) && u.next == w.next && CreatorOf(u, keep) == CreatorOf(w, keep)
    ensures u.rows == w.rows[v := Row(Destroying, w.rows[v].parent, false)] && CollectorOf(u, 0) == GotDestroying(v)
  {
    hide Goes;
    var w1 := Do(w, Orphan(v));
    var w2 := Do(w1, PickCreated(0, v));
    assert !HasChild(w2, v);
    u := Do(w2, MarkDestroying(0));
    steps := One(w2, MarkDestroying(0));
    steps := Then(w1, PickCreated(0, v), steps, u);
    steps := Then(w, Orphan(v), steps, u);
  }

  /** A childless `created` row goes through `destroying`. */
  lemma RemoveLeaf(w: World, v: nat, keep: nat) returns (steps: seq<Step>, u: World)
    requires StateOf(w, v) == Some(Created) && !HasChild(w, v)
    ensures Goes(w, steps, u) && v !in u.rows && Spares(w, u, v, keep)
  {
    hide Goes;
    var first, mid := MarkLeaf(w, v, keep);
    steps, u := FinishDestroying(mid, v, keep);
    steps := After(w, first, mid, steps, u);
  }

  /** A `creating` row can be settled by another creator: whoever holds its lock stops,
      and the volume is found, or refused by the worker. */
  lemma SettleCreating(w: World, v: nat, keep: nat) returns (steps: seq<Step>, u: World)
    requires Inv(w) && StateOf(w, v) == Some(Creating) && (v in w.locks ==> w.locks[v] != keep)
    ensures Goes(w, steps, u) && u.next == w.next && CreatorOf(u, keep) == CreatorOf(w, keep)
    ensures v in u.rows && (u.rows[v].state.Created? || u.rows[v].state.Failed?)
    ensures u.rows == w.rows[v := w.rows[v].(state := u.rows[v].state)]
  {
    hide Goes;
    var r := keep + 1;
    var free, first := Unlock(w, v, keep);
    var w1 := Do(free, Stop(r));
    var w2 := Do(w1, FindCreating(r, v));
    steps, u := Conclude(w2, v, keep);
    steps := Then(w1, FindCreating(r, v), steps, u);
    steps := Then(free, Stop(r), steps, u);
    steps := After(w, first, free, steps, u);
  }

  lemma Conclude(w: World, v: nat, keep: nat) returns (steps: seq<Step>, u: World)
    requires StateOf(w, v) == Some(Creating) && v !in w.locks && CreatorOf(w, keep + 1) == Found(v)
    ensures Goes(w, steps, u) && u.next == w.next && CreatorOf(u, keep) == CreatorOf(w, keep)
    ensures v in u.rows && (u.rows[v].state.Created? || u.rows[v].state.Failed?)
    ensures u.rows == w.rows[v := w.rows[v].(state := u.rows[v].state)]
  {
    hide Goes;
    var r := keep + 1;
    var w1 := Do(w, Acquire(r));
    var w2 := Do(w1, Lookup(r));
    if v in w.present {
      u := Do(w2, MarkCreated(r));
      steps := One(w2, MarkCreated(r));
    } else {
      var w3 := Do(w2, CreateReal(r, false));
      u := Do(w3, MarkFailed(r));
      steps := One(w3, MarkFailed(r));
      steps := Then(w2, CreateReal(r, false), steps, u);
    }
    steps := Then(w1, Lookup(r), steps, u);
    steps := Then(w, Acquire(r), steps, u);
  }

  lemma Unlock(w: World, v: nat, keep: nat) returns (u: World, steps: seq<Step>)
    requires v in w.locks ==> w.locks[v] != keep
    ensures Goes(w, steps, u) && v !in u.locks && CreatorOf(u, keep) == CreatorOf(w, keep)
    ensures u.rows == w.rows && u.present == w.present && u.next == w.next
  {
    if v in w.locks {
      u := Do(w, Stop(w.locks[v]));
      steps := One(w, Stop(w.locks[v]));
    } else {
      u := w;
      steps := Stays(w);
    }
  }

  // ---- Leaf first --------------------------------------------------------------

  function Rank(s: Option<State>): nat
  {
    if s == Some(Creating) then 1 else 0
  }

  /** The process holds no lock of a row that is still `creating`. */
  ghost predicate HoldsNothingFresh(w: World, keep: nat)
  {
    forall x | x in w.locks && w.locks[x] == keep :: StateOf(w, x) != Some(Creating)
  }

  lemma StillNothingFresh(w: World, u: World, v: nat, keep: nat)
    requires Inv(w) && Inv(u) && HoldsNothingFresh(w, keep) && CreatorOf(u, keep) == CreatorOf(w, keep)
    requires forall x | x in u.rows && u.rows[x].state.Creating? :: x in w.rows && w.rows[x].state.Creating?
    ensures HoldsNothingFresh(u, keep)
  {
    forall x | x in u.locks && u.locks[x] == keep
      ensures StateOf(u, x) != Some(Creating)
    {
      assert VolumeOk(u, x) && CreatorOk(w, keep);
    }
  }

  lemma FewerRows(small: map<nat, Row>, large: map<nat, Row>, gone: nat)
    requires gone in large && gone !in small && forall x | x in small :: x in large
    ensures |small| < |large|
  {
    Subset(small.Keys, large.Keys - {gone});
    assert |large.Keys - {gone}| == |large.Keys| - 1;
  }

  lemma {:induction false} Subset(a: set<nat>, b: set<nat>)
    requires a <= b
    ensures |a| <= |b|
    decreases a
  {
    if x :| x in a { Subset(a - {x}, b - {x}); }
  }

  /** Every row can be got rid of, its children first, past any process that holds no
      `creating` row. */
  lemma {:induction false} Remove(w: World, v: nat, keep: nat) returns (steps: seq<Step>, u: World)
    requires Inv(w) && v in w.rows && HoldsNothingFresh(w, keep)
    ensures Goes(w, steps, u) && Inv(u) && v !in u.rows && Spares(w, u, v, keep)
    decreases |w.rows|, w.next - v, Rank(StateOf(w, v))
  {
    hide Goes, Inv, Do, Enabled;
    match w.rows[v].state {
      case Failed => steps, u := RemoveFailed(w, v, keep);
      case Destroying => steps, u := RemoveDestroying(w, v, keep);
      case Creating => steps, u := RemoveCreating(w, v, keep);
      case Created =>
        if HasChild(w, v) {
          steps, u := RemoveParent(w, v, keep);
        } else {
          steps, u := RemoveLeaf(w, v, keep);
        }
    }
    GoesKeepsInv(w, steps, u);
  }

  lemma {:induction false} RemoveCreating(w: World, v: nat, keep: nat) returns (steps: seq<Step>, u: World)
    requires Inv(w) && StateOf(w, v) == Some(Creating) && HoldsNothingFresh(w, keep)
    ensures Goes(w, steps, u) && v !in u.rows && Spares(w, u, v, keep)
    decreases |w.rows|, w.next - v, Rank(StateOf(w, v)), 0
  {
    hide Goes, Inv, Do, Enabled;
    var first, mid := SettleCreating(w, v, keep);
    GoesKeepsInv(w, first, mid);
    StillNothingFresh(w, mid, v, keep);
    assert mid.rows.Keys == w.rows.Keys;
    assert |mid.rows| == |mid.rows.Keys| && |w.rows| == |w.rows.Keys|;
    steps, u := Remove(mid, v, keep);
    steps := After(w, first, mid, steps, u);
  }

  lemma {:induction false} RemoveParent(w: World, v: nat, keep: nat) returns (steps: seq<Step>, u: World)
    requires Inv(w) && StateOf(w, v) == Some(Created) && HasChild(w, v) && HoldsNothingFresh(w, keep)
    ensures Goes(w, steps, u) && v !in u.rows && Spares(w, u, v, keep)
    decreases |w.rows|, w.next - v, Rank(StateOf(w, v)), 0
  {
    hide Goes, Do, Enabled;
    var child: nat :| child in w.rows && w.rows[child].parent == Some(v);
    assert VolumeOk(w, child);
    var first, mid := Remove(w, child, keep);
    StillNothingFresh(w, mid, v, keep);
    FewerRows(mid.rows, w.rows, child);
    steps, u := Remove(mid, v, keep);
    steps := After(w, first, mid, steps, u);
  }

  lemma GoesKeepsInv(w: World, steps: seq<Step>, u: World)
    requires Inv(w) && Goes(w, steps, u)
    ensures Inv(u)
  {
    hide Inv;
    RunKeepsInv(w, steps);
  }

  // ---- The lock and the row ----------------------------------------------------

  /** Every real volume has a row, and not a failed one. */
  ghost predicate NothingLeft(w: World)
  {
    forall v | v in w.present :: v in w.rows && !w.rows[v].state.Failed?
  }

  /** With the row gone or failed, the creator that holds the lock makes the volume. */
  lemma LockedMakes(w: World, p: nat, v: nat) returns (steps: seq<Step>, u: World)
    requires CreatorOf(w, p) == Locked(v) && (StateOf(w, v) == None || StateOf(w, v) == Some(Failed))
    ensures Goes(w, steps, u) && !NothingLeft(u)
  {
    hide Goes;
    var w1 := Do(w, Lookup(p));
    if v in w.present {
      u := w1;
      steps := One(w, Lookup(p));
    } else {
      u := Do(w1, CreateReal(p, true));
      steps := One(w1, CreateReal(p, true));
      steps := Then(w, Lookup(p), steps, u);
    }
    assert v in u.present && StateOf(u, v) == StateOf(w, v);
  }

  lemma StaleLockLeaves(w: World, p: nat, v: nat) returns (steps: seq<Step>)
    requires Inv(w) && CreatorOf(w, p) == Found(v) && v !in w.locks && StateOf(w, v) != Some(Creating)
    ensures var u := Do(w, Acquire(p)); Allowed(u, steps) && FreshRun(u, steps) && !NothingLeft(Exec(u, steps))
  {
    hide Inv;
    var u := Do(w, Acquire(p));
    StepKeepsInv(w, Acquire(p));
    var gone, first := u, [];
    if v in w.rows && !w.rows[v].state.Failed? {
      OnlyLock(w, p, v);
      first, gone := Remove(u, v, p);
    } else {
      first := Stays(u);
    }
    var second, last := LockedMakes(gone, p, v);
    steps := After(u, first, gone, second, last);
  }

  lemma OnlyLock(w: World, p: nat, v: nat)
    requires Inv(w) && CreatorOf(w, p) == Found(v) && v !in w.locks && StateOf(w, v) != Some(Creating)
    ensures HoldsNothingFresh(Do(w, Acquire(p)), p)
  {
    forall x | x in w.locks
      ensures w.locks[x] != p
    {
      assert VolumeOk(w, x);
    }
  }

  /** Taking the lock is safe, in every continuation that takes later locks on fresh
      rows, exactly when the row is still `creating`. */
  lemma LockIsSafeIffCreating(w: World, p: nat, v: nat)
    requires Inv(w) && Clean(w) && CreatorOf(w, p) == Found(v) && v !in w.locks
    ensures StateOf(w, v) == Some(Creating) <==>
      var u := Do(w, Acquire(p));
      forall steps | Allowed(u, steps) && FreshRun(u, steps) :: NothingLeft(Exec(u, steps))
  {
    hide Inv;
    var u := Do(w, Acquire(p));
    StepKeepsInv(w, Acquire(p));
    if StateOf(w, v) == Some(Creating) {
      StepKeepsClean(w, Acquire(p));
      forall steps | Allowed(u, steps) && FreshRun(u, steps)
        ensures NothingLeft(Exec(u, steps))
      {
        FreshRunKeepsClean(u, steps);
        CleanMeansNothingLeft(Exec(u, steps));
      }
    } else {
      var steps := StaleLockLeaves(w, p, v);
    }
  }

  lemma CleanMeansNothingLeft(w: World)
    requires Clean(w)
    ensures NothingLeft(w)
  {
    forall v | v in w.present
      ensures v in w.rows && !w.rows[v].state.Failed?
    {
      assert VolumeClean(w, v);
    }
  }

  // ---- It happens ----------------------------------------------------------------

  /** Two creators find the same row, the first fails to create the volume, and the
      second, holding what it read before, takes the lock next. */
  lemma StaleLockHappens() returns (steps: seq<Step>)
    ensures Allowed(START, steps)
    ensures var w := Exec(START, steps);
      Inv(w) && Clean(w) && CreatorOf(w, 1) == Found(0) && 0 !in w.locks && StateOf(w, 0) == Some(Failed)
  {
    hide Inv, Goes;
    var w1 := Do(START, Insert(0));
    var w2 := Do(w1, FindCreating(1, 0));
    var w3 := Do(w2, Acquire(0));
    var w4 := Do(w3, Lookup(0));
    var w5 := Do(w4, CreateReal(0, false));
    var w6 := Do(w5, MarkFailed(0));
    assert CreatorOf(w6, 1) == Found(0) && 0 !in w6.locks && StateOf(w6, 0) == Some(Failed);
    steps := One(w5, MarkFailed(0));
    steps := Then(w4, CreateReal(0, false), steps, w6);
    steps := Then(w3, Lookup(0), steps, w6);
    steps := Then(w2, Acquire(0), steps, w6);
    steps := Then(w1, FindCreating(1, 0), steps, w6);
    steps := Then(START, Insert(0), steps, w6);
    FromStart(steps, w6);
  }

  lemma FromStart(steps: seq<Step>, u: World)
    requires Goes(START, steps, u)
    ensures Allowed(START, steps) && Exec(START, steps) == u && Inv(u) && Clean(u)
  {
    hide Inv;
    StartIsOk();
    RunKeepsInv(START, steps);
    FreshRunKeepsClean(START, steps);
  }

  lemma {:induction false} Join(w: World, a: seq<Step>, b: seq<Step>)
    requires Allowed(w, a) && Allowed(Exec(w, a), b)
    ensures Allowed(w, a + b) && Exec(w, a + b) == Exec(Exec(w, a), b)
    decreases |a|
  {
    if a == [] {
      assert a + b == b;
    } else {
      Join(Do(w, a[0]), a[1..], b);
      assert (a + b)[1..] == a[1..] + b;
    }
  }

  /** So a run of the system ends with a failed row and its real volume. */
  lemma FailedRowWithVolume() returns (steps: seq<Step>)
    ensures Allowed(START, steps) && !NothingLeft(Exec(START, steps))
    ensures StateOf(Exec(START, steps), 0) == Some(Failed) && 0 in Exec(START, steps).present
  {
    hide Allowed, Exec, Inv, Clean;
    steps := StaleLockHappens();
    var w := Exec(START, steps);
    var u := Do(w, Acquire(1));
    var locked := OneStep(w, Acquire(1));
    Join(START, steps, locked);
    steps := steps + locked;
    var look := OneStep(u, Lookup(1));
    Join(START, steps, look);
    steps := steps + look;
    if 0 !in w.present {
      var make := OneStep(Do(u, Lookup(1)), CreateReal(1, true));
      Join(START, steps, make);
      steps := steps + make;
    }
  }

  lemma OneStep(w: World, s: Step) returns (steps: seq<Step>)
    requires Enabled(w, s)
    ensures Allowed(w, steps) && Exec(w, steps) == Do(w, s)
  {
    steps := [s];
    assert steps[1..] == [];
  }
}
