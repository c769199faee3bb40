/**
 * Copy-on-write trees of volumes: which step of a run gave a row its parent, and what
 * a child means for its parent from then on.
 */
module VolumeTrees {
  import opened Options
  import opened Volumes

  // ---- Places in a run -------------------------------------------------------------

  /** The world before step `i`. */
  function At(w: World, steps: seq<Step>, i: nat): World
    requires Allowed(w, steps) && i <= |steps|
    decreases i
  {
    if i == 0 then w else At(Do(w, steps[0]), steps[1..], i - 1)
  }

  /** From there the run goes on as before. */
  lemma {:induction false} RunFrom(w: World, steps: seq<Step>, i: nat)
    requires Inv(w) && Allowed(w, steps) && i <= |steps|
    ensures var u := At(w, steps, i);
      Inv(u) && Allowed(u, steps[i..]) && Exec(u, steps[i..]) == Exec(w, steps)
    decreases i
  {
    hide Inv, Do, Enabled;
    if i == 0 {
      assert steps[0..] == steps;
    } else {
      StepKeepsInv(w, steps[0]);
      RunFrom(Do(w, steps[0]), steps[1..], i - 1);
      assert steps[1..][i - 1..] == steps[i..];
    }
  }

  // ---- Inserting -------------------------------------------------------------------

  /** The step adds a row: a child only to a parent that is `created`. */
  predicate Inserts(w: World, s: Step)
  {
    s.Insert? || (s.InsertChild? && StateOf(w, s.parent) == Some(Created))
  }

  lemma StepInserts(w: World, s: Step)
    requires Enabled(w, s)
    ensures Do(w, s).next == w.next + if Inserts(w, s) then 1 else 0
    ensures Inserts(w, s) ==>
      && StateOf(Do(w, s), w.next) == Some(Creating)
      && Do(w, s).rows[w.next].parent == if s.Insert? then None else Some(s.parent)
  {
  }

  /** Of the two kinds of insert, the one that made the row. */
  ghost predicate MadeBy(parent: Option<nat>, s: Step)
  {
    && (parent.None? <==> s.Insert?)
    && (forall x :: parent == Some(x) <==> s.InsertChild? && s.parent == x)
  }

  /** Every row was inserted at one place of the run, the only one at which its id was
      next; it has the parent named there, or none if none was named. */
  lemma {:induction false} InsertedAt(w: World, steps: seq<Step>, v: nat) returns (i: nat)
    requires Inv(w) && Allowed(w, steps) && w.next <= v < Exec(w, steps).next
    ensures i < |steps| && At(w, steps, i).next == v && Inserts(At(w, steps, i), steps[i])
    ensures v in Exec(w, steps).rows ==> MadeBy(Exec(w, steps).rows[v].parent, steps[i])
    decreases |steps|
  {
    hide Inv, Do, Enabled, Inserts;
    var u := Do(w, steps[0]);
    StepInserts(w, steps[0]);
    StepKeepsInv(w, steps[0]);
    if v < u.next {
      i := 0;
      InsertsOnly(w, steps[0]);
      if v in Exec(w, steps).rows { ParentsStay(u, steps[1..], v); }
    } else {
      var k := InsertedAt(u, steps[1..], v);
      i := k + 1;
    }
  }

  lemma InsertsOnly(w: World, s: Step)
    requires Inserts(w, s)
    ensures s.Insert? || s.InsertChild?
  {
  }

  /** The id an insert gives is not given again. */
  lemma {:induction false} NextGrows(w: World, steps: seq<Step>, i: nat, k: nat)
    requires Allowed(w, steps) && i <= k <= |steps|
    ensures At(w, steps, i).next <= At(w, steps, k).next
    ensures i < k && Inserts(At(w, steps, i), steps[i]) ==> At(w, steps, i).next < At(w, steps, k).next
    decreases k
  {
    hide Do, Enabled, Inserts;
    if k > 0 {
      StepInserts(w, steps[0]);
      NextGrows(Do(w, steps[0]), steps[1..], if i > 0 then i - 1 else 0, k - 1);
    }
  }

  /** A child was inserted under `parent` at place `i`. */
  predicate ChildAt(steps: seq<Step>, i: nat, parent: nat)
    requires Allowed(START, steps)
  {
    && i < |steps| && steps[i].InsertChild? && steps[i].parent == parent
    && StateOf(At(START, steps, i), parent) == Some(Created)
  }

  /** The id of the row inserted at place `i`. */
  function IdAt(steps: seq<Step>, i: nat): nat
    requires Allowed(START, steps) && i <= |steps|
  {
    At(START, steps, i).next
  }

  /** Over every run: the row a child insert made, as long as it is there, has the parent
      that was named. */
  lemma ChildHasParent(steps: seq<Step>, i: nat, parent: nat)
    requires Allowed(START, steps) && ChildAt(steps, i, parent)
    ensures var w, child := Exec(START, steps), IdAt(steps, i);
      child < w.next && (child in w.rows ==> w.rows[child].parent == Some(parent))
  {
    hide Inv, Allowed, Exec, Do, Enabled;
    var u, child := At(START, steps, i), IdAt(steps, i);
    StartIsOk();
    RunFrom(START, steps, i);
    Head(u, steps[i..]);
    var v := Do(u, steps[i]);
    StepInserts(u, steps[i]);
    StepKeepsInv(u, steps[i]);
    NextStays(v, steps[i..][1..]);
    if child in Exec(START, steps).rows { ParentsStay(v, steps[i..][1..], child); }
  }

  lemma Head(w: World, steps: seq<Step>)
    requires Allowed(w, steps) && steps != []
    ensures Enabled(w, steps[0]) && Allowed(Do(w, steps[0]), steps[1..])
    ensures Exec(w, steps) == Exec(Do(w, steps[0]), steps[1..])
  {
  }

  lemma NextStays(w: World, steps: seq<Step>)
    requires Allowed(w, steps)
    ensures w.next <= Exec(w, steps).next
  {
    NextGrows(w, steps, 0, |steps|);
    AtEnd(w, steps);
  }

  lemma {:induction false} AtEnd(w: World, steps: seq<Step>)
    requires Allowed(w, steps)
    ensures At(w, steps, |steps|) == Exec(w, steps)
    decreases |steps|
  {
    if steps != [] { AtEnd(Do(w, steps[0]), steps[1..]); }
  }

  // ---- What a child means for its parent -----------------------------------------------

  /** Over every run, as long as a child's row is there its parent is `created` and real. */
  lemma ChildHoldsParent(steps: seq<Step>, i: nat, parent: nat)
    requires Allowed(START, steps) && ChildAt(steps, i, parent)
    ensures var w := Exec(START, steps);
      IdAt(steps, i) in w.rows ==> StateOf(w, parent) == Some(Created) && parent in w.present
  {
    hide Inv, Allowed, Exec, At;
    ChildHasParent(steps, i, parent);
    CreatedRowsAreReal(steps, IdAt(steps, i));
    CreatedRowsAreReal(steps, parent);
  }

  /** Copy-on-write trees go leaf first, on the worker as in the database: once a volume is
      `destroying` or gone, the rows and volumes of all children ever inserted under it
      are gone. */
  lemma ChildrenGoFirst(steps: seq<Step>, i: nat, parent: nat)
    requires Allowed(START, steps) && FreshRun(START, steps) && ChildAt(steps, i, parent)
    requires StateOf(Exec(START, steps), parent) != Some(Created)
    ensures var w, child := Exec(START, steps), IdAt(steps, i); child !in w.rows && child !in w.present
  {
    hide Allowed, Exec, At, FreshRun;
    ChildHoldsParent(steps, i, parent);
    NothingIsLeftBehind(steps, IdAt(steps, i));
  }

  /** A collector that has picked a `created` volume dooms it, or goes on with it if another
      one has, exactly when no row that was inserted as its child is left. */
  lemma DoomedIffChildless(steps: seq<Step>, q: nat)
    requires Allowed(START, steps) && Enabled(Exec(START, steps), MarkDestroying(q))
    requires CollectorOf(Exec(START, steps), q).v in Exec(START, steps).rows
    ensures
      var w, v := Exec(START, steps), CollectorOf(Exec(START, steps), q).v;
      var u := Do(w, MarkDestroying(q));
      && (StateOf(u, v) == Some(Destroying) <==>
          forall i: nat {:trigger ChildAt(steps, i, v)} | ChildAt(steps, i, v) :: IdAt(steps, i) !in w.rows)
      && CollectorOf(u, q) == if StateOf(u, v) == Some(Destroying) then GotDestroying(v) else Resting
  {
    hide Inv, Allowed, Exec, At;
    var w, v := Exec(START, steps), CollectorOf(Exec(START, steps), q).v;
    PickedWasCreated(steps, q);
    if HasChild(w, v) {
      var child :| child in w.rows && w.rows[child].parent == Some(v);
      StartIsOk();
      RowsAreBelow(steps, child);
      var i := InsertedAt(START, steps, child);
      assert ChildAt(steps, i, v) && IdAt(steps, i) == child;
    } else {
      forall i: nat | ChildAt(steps, i, v)
        ensures IdAt(steps, i) !in w.rows
      {
        ChildHasParent(steps, i, v);
      }
    }
  }

  lemma PickedWasCreated(steps: seq<Step>, q: nat)
    requires Allowed(START, steps) && CollectorOf(Exec(START, steps), q).GotCreated?
    ensures var w, v := Exec(START, steps), CollectorOf(Exec(START, steps), q).v;
      && StateOf(w, v) in {None, Some(Created), Some(Destroying)}
      && (HasChild(w, v) ==> StateOf(w, v) == Some(Created))
  {
    var w, v := Exec(START, steps), CollectorOf(Exec(START, steps), q).v;
    StartIsOk();
    RunKeepsInv(START, steps);
    assert CollectorOk(w, q);
    if child :| child in w.rows && w.rows[child].parent == Some(v) { assert VolumeOk(w, child); }
  }

  lemma RowsAreBelow(steps: seq<Step>, v: nat)
    requires Allowed(START, steps)
    ensures v in Exec(START, steps).rows ==> v < Exec(START, steps).next
  {
    StartIsOk();
    RunKeepsInv(START, steps);
    assert VolumeOk(Exec(START, steps), v);
  }

  /** One volume, created and owned. */
  const ONE := World(map[0 := Row(Created, None, true)], {0}, 1, map[], map[0 := Idle], map[])

  lemma MakeOne(rest: seq<Step>) returns (steps: seq<Step>)
    requires Allowed(ONE, rest)
    ensures |steps| == 5 + |rest| && steps[5..] == rest && Allowed(START, steps)
    ensures Exec(START, steps) == Exec(ONE, rest) && At(START, steps, 5) == ONE
  {
    hide Allowed, Exec, At;
    var w1 := Do(START, Insert(0));
    var w2 := Do(w1, Acquire(0));
    var w3 := Do(w2, Lookup(0));
    var w4 := Do(w3, CreateReal(0, true));
    assert w4.rows == map[0 := Row(Creating, None, true)] && w4.locks == map[0 := 0];
    assert Do(w4, MarkCreated(0)) == ONE;
    AtStart(ONE, rest);
    steps := Cons(w4, MarkCreated(0), rest, 0);
    steps := Cons(w3, CreateReal(0, true), steps, 1);
    steps := Cons(w2, Lookup(0), steps, 2);
    steps := Cons(w1, Acquire(0), steps, 3);
    steps := Cons(START, Insert(0), steps, 4);
  }

  lemma AtStart(w: World, steps: seq<Step>)
    requires Allowed(w, steps)
    ensures At(w, steps, 0) == w
  {
  }

  /** And it happens: a child being created holds its parent, which nobody owns any more,
      against the collector. */
  lemma ChildAgainstCollector() returns (steps: seq<Step>)
    ensures Allowed(START, steps) && ChildAt(steps, 5, 0) && steps[|steps| - 1].MarkDestroying?
    ensures var w := Exec(START, steps);
      && IdAt(steps, 5) in w.rows && StateOf(w, 0) == Some(Created) && !w.rows[0].owned
      && CollectorOf(w, steps[|steps| - 1].q).Resting?
  {
    hide Allowed, Exec, At;
    var rest, w := ChildHeld();
    steps := MakeOne(rest);
    assert steps[5] == rest[0] && steps[|steps| - 1] == rest[|rest| - 1];
  }

  lemma ChildHeld() returns (steps: seq<Step>, w: World)
    ensures Allowed(ONE, steps) && Exec(ONE, steps) == w
    ensures |steps| == 4 && steps[0] == InsertChild(1, 0) && steps[3] == MarkDestroying(2)
    ensures 1 in w.rows && StateOf(w, 0) == Some(Created) && !w.rows[0].owned && CollectorOf(w, 2).Resting?
  {
    hide Allowed, Exec, At;
    var w1 := Do(ONE, InsertChild(1, 0));
    var w2 := Do(w1, Orphan(0));
    var w3 := Do(w2, PickCreated(2, 0));
    assert w3.rows[1].parent == Some(0) && HasChild(w3, 0);
    w := Do(w3, MarkDestroying(2));
    steps := Nothing(w);
    steps := Cons(w3, MarkDestroying(2), steps, 0);
    steps := Cons(w2, PickCreated(2, 0), steps, 0);
    steps := Cons(w1, Orphan(0), steps, 0);
    steps := Cons(ONE, InsertChild(1, 0), steps, 0);
  }

  lemma Nothing(w: World) returns (steps: seq<Step>)
    ensures steps == [] && Allowed(w, steps) && Exec(w, steps) == w && At(w, steps, 0) == w
  {
    steps := [];
  }

  lemma Cons(w: World, s: Step, rest: seq<Step>, i: nat) returns (steps: seq<Step>)
    requires Enabled(w, s) && Allowed(Do(w, s), rest) && i <= |rest|
    ensures steps == [s] + rest && Allowed(w, steps) && Exec(w, steps) == Exec(Do(w, s), rest)
    ensures At(w, steps, 0) == w && At(w, steps, i + 1) == At(Do(w, s), rest, i)
  {
    steps := [s] + rest;
    assert steps[1..] == rest;
  }
}
