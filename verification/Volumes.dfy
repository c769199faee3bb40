/**
 * Volumes of one worker: rows in the database, real volumes on the worker, any
 * number of creators (findOrCreateVolume) and collectors, each able to stop at any
 * point. A row's id stands for its handle, which is unique.
 */
module Volumes {
  import opened Options

  datatype State = Creating | Created | Destroying | Failed

  /** `owned` while some container, cache, type or certs column is set. */
  datatype Row = Row(state: State, parent: Option<nat>, owned: bool)

  datatype Creator =
    | Idle
    | Found(v: nat)         // has a row that was `creating` when read or inserted
    | Locked(v: nat)        // holds the creating lock
    | Missing(v: nat)       // looked up the real volume: not there
    | Made(v: nat)          // the real volume was there, or has been created
    | CreateFailed(v: nat)  // the worker refused to create it

  datatype Collector =
    | Resting
    | GotCreated(v: nat)
    | GotDestroying(v: nat)
    | ToDestroy(v: nat)     // the real volume was found
    | ToDelete(v: nat)      // the real volume was absent or is destroyed
    | GotFailed(v: nat)

  datatype World = World(rows: map<nat, Row>, present: set<nat>, next: nat, locks: map<nat, nat>,
                         creators: map<nat, Creator>, collectors: map<nat, Collector>)

  datatype Step =
    | Insert(p: nat)
    | InsertChild(p: nat, parent: nat)
    | FindCreating(p: nat, v: nat)
    | Acquire(p: nat)
    | Lookup(p: nat)
    | CreateReal(p: nat, ok: bool)
    | MarkFailed(p: nat)
    | MarkCreated(p: nat)
    | Stop(p: nat)                        // an error or a crash; the lock goes with the session
    | Own(v: nat) | Orphan(v: nat)
    | PickCreated(q: nat, v: nat)
    | PickDestroying(q: nat, v: nat)
    | PickFailed(q: nat, v: nat)
    | MarkDestroying(q: nat)
    | LookupReal(q: nat)
    | DestroyReal(q: nat, ok: bool)
    | DeleteRow(q: nat)
    | DeleteFailed(q: nat)
    | StopCollector(q: nat)

  function CreatorOf(w: World, p: nat): Creator
  {
    if p in w.creators then w.creators[p] else Idle
  }

  function CollectorOf(w: World, q: nat): Collector
  {
    if q in w.collectors then w.collectors[q] else Resting
  }

  /** The state of a row, or None once it is gone. */
  function StateOf(w: World, v: nat): Option<State>
  {
    if v in w.rows then Some(w.rows[v].state) else None
  }

  predicate HasChild(w: World, v: nat)
  {
    exists c :: c in w.rows && w.rows[c].parent == Some(v)
  }

  predicate Enabled(w: World, s: Step)
  {
    match s
    case Insert(p) => CreatorOf(w, p).Idle?
    case InsertChild(p, _) => CreatorOf(w, p).Idle?
    case FindCreating(p, v) => CreatorOf(w, p).Idle? && StateOf(w, v) == Some(Creating)
    case Acquire(p) => CreatorOf(w, p).Found?
    case Lookup(p) => CreatorOf(w, p).Locked?
    case CreateReal(p, _) => CreatorOf(w, p).Missing?
    case MarkFailed(p) => CreatorOf(w, p).CreateFailed?
    case MarkCreated(p) => CreatorOf(w, p).Made?
    case Stop(p) => true
    case Own(v) => v in w.rows
    case Orphan(v) => v in w.rows && !w.rows[v].state.Creating?      // a check constraint of the table
    case PickCreated(q, v) => StateOf(w, v) == Some(Created) && !w.rows[v].owned
    case PickDestroying(q, v) => StateOf(w, v) == Some(Destroying) && !w.rows[v].owned
    case PickFailed(q, v) => StateOf(w, v) == Some(Failed)
    case MarkDestroying(q) => CollectorOf(w, q).GotCreated?
    case LookupReal(q) => CollectorOf(w, q).GotDestroying?
    case DestroyReal(q, _) => CollectorOf(w, q).ToDestroy?
    case DeleteRow(q) => CollectorOf(w, q).ToDelete?
    case DeleteFailed(q) => CollectorOf(w, q).GotFailed?
    case StopCollector(q) => true
  }

  // ---- Single statements -------------------------------------------------------

  function Creates(w: World, p: nat, c: Creator): World
  {
    w.(creators := w.creators[p := c])
  }

  function Collects(w: World, q: nat, c: Collector): World
  {
    w.(collectors := w.collectors[q := c])
  }

  /** The update of volumeStateTransition: it also matches a row already in `to`. */
  function Transition(w: World, v: nat, from: State, to: State): World
  {
    if v in w.rows && (w.rows[v].state == from || w.rows[v].state == to)
    then w.(rows := w.rows[v := w.rows[v].(state := to)])
    else w
  }

  function Release(w: World, p: nat): World
  {
    Creates(w.(locks := map v | v in w.locks && w.locks[v] != p :: w.locks[v]), p, Idle)
  }

  function InsertRow(w: World, p: nat, parent: Option<nat>): World
  {
    Creates(w.(rows := w.rows[w.next := Row(Creating, parent, true)], next := w.next + 1), p, Found(w.next))
  }

  /** The row goes to `destroying` unless a child's foreign key holds it. */
  function Doom(w: World, q: nat, v: nat): World
  {
    match StateOf(w, v)
    case Some(Created) =>
      if HasChild(w, v) then Collects(w, q, Resting)
      else Collects(Transition(w, v, Created, Destroying), q, GotDestroying(v))
    case Some(Destroying) => Collects(w, q, GotDestroying(v))
    case _ => Collects(w, q, Resting)
  }

  function Delete(w: World, v: nat, state: State): World
  {
    if StateOf(w, v) == Some(state) then w.(rows := w.rows - {v}) else w
  }

  function Do(w: World, s: Step): World
    requires Enabled(w, s)
  {
    match s
    case Insert(p) => InsertRow(w, p, None)
    case InsertChild(p, parent) => if StateOf(w, parent) == Some(Created) then InsertRow(w, p, Some(parent)) else w
    case FindCreating(p, v) => Creates(w, p, Found(v))
    case Acquire(p) =>
      var v := w.creators[p].v;
      if v in w.locks then Creates(w, p, Idle)
      else Creates(w.(locks := w.locks[v := p]), p, Locked(v))
    case Lookup(p) =>
      var v := w.creators[p].v;
      Creates(w, p, if v in w.present then Made(v) else Missing(v))
    case CreateReal(p, ok) =>
      var v := w.creators[p].v;
      if ok then Creates(w.(present := w.present + {v}), p, Made(v)) else Creates(w, p, CreateFailed(v))
    case MarkFailed(p) => Release(Transition(w, w.creators[p].v, Creating, Failed), p)
    case MarkCreated(p) => Release(Transition(w, w.creators[p].v, Creating, Created), p)
    case Stop(p) => Release(w, p)
    case Own(v) => w.(rows := w.rows[v := w.rows[v].(owned := true)])
    case Orphan(v) => w.(rows := w.rows[v := w.rows[v].(owned := false)])
    case PickCreated(q, v) => Collects(w, q, GotCreated(v))
    case PickDestroying(q, v) => Collects(w, q, GotDestroying(v))
    case PickFailed(q, v) => Collects(w, q, GotFailed(v))
    case MarkDestroying(q) => Doom(w, q, w.collectors[q].v)
    case LookupReal(q) =>
      var v := w.collectors[q].v;
      Collects(w, q, if v in w.present then ToDestroy(v) else ToDelete(v))
    case DestroyReal(q, ok) =>
      var v := w.collectors[q].v;
      if ok then Collects(w.(present := w.present - {v}), q, ToDelete(v)) else Collects(w, q, Resting)
    case DeleteRow(q) => Collects(Delete(w, w.collectors[q].v, Destroying), q, Resting)
    case DeleteFailed(q) => Collects(Delete(w, w.collectors[q].v, Failed), q, Resting)
    case StopCollector(q) => Collects(w, q, Resting)
  }

  predicate Allowed(w: World, steps: seq<Step>)
    decreases |steps|
  {
    steps == [] || (Enabled(w, steps[0]) && Allowed(Do(w, steps[0]), steps[1..]))
  }

  function Exec(w: World, steps: seq<Step>): World
    requires Allowed(w, steps)
    decreases |steps|
  {
    if steps == [] then w else Exec(Do(w, steps[0]), steps[1..])
  }

  const START := World(map[], {}, 0, map[], map[], map[])

  // ---- The invariant -----------------------------------------------------------

  predicate Holds(c: Creator, v: nat)
  {
    !c.Idle? && !c.Found? && c.v == v
  }

  predicate VolumeOk(w: World, v: nat)
  {
    && (v in w.rows || v in w.present || v in w.locks ==> v < w.next)
    && (StateOf(w, v) == Some(Created) ==> v in w.present)
    && (v in w.rows && w.rows[v].parent.Some? ==>
          w.rows[v].parent.value < v && StateOf(w, w.rows[v].parent.value) == Some(Created))
    && (v in w.locks ==> Holds(CreatorOf(w, w.locks[v]), v))
  }

  predicate CreatorOk(w: World, p: nat)
  {
    var c := CreatorOf(w, p);
    !c.Idle? ==>
      && c.v < w.next
      && (Holds(c, c.v) ==> c.v in w.locks && w.locks[c.v] == p)
      && (c.Missing? || c.CreateFailed? ==> c.v !in w.present)
      && (c.Made? && StateOf(w, c.v) == Some(Creating) ==> c.v in w.present)
  }

  /** The states a row can still be in after a collector read it in `from`. */
  predicate After(from: State, now: Option<State>)
  {
    now == None || now == Some(from) || (from.Created? && now == Some(Destroying))
  }

  predicate CollectorOk(w: World, q: nat)
  {
    var c := CollectorOf(w, q);
    c.Resting? ||
    (c.v < w.next &&
     After(if c.GotCreated? then Created else if c.GotFailed? then Failed else Destroying, StateOf(w, c.v)))
  }

  ghost predicate Inv(w: World)
  {
    && (forall v: nat {:trigger VolumeOk(w, v)} :: VolumeOk(w, v))
    && (forall p: nat {:trigger CreatorOk(w, p)} :: CreatorOk(w, p))
    && (forall q: nat {:trigger CollectorOk(w, q)} :: CollectorOk(w, q))
  }

  // ---- Every step keeps it -----------------------------------------------------

  /** The volume a step works on, if it belongs to a creator or a collector. */
  function Target(w: World, s: Step): nat
    requires Enabled(w, s)
  {
    match s
    case InsertChild(_, parent) => parent
    case Acquire(p) => w.creators[p].v
    case Lookup(p) => w.creators[p].v
    case CreateReal(p, _) => w.creators[p].v
    case MarkFailed(p) => w.creators[p].v
    case MarkCreated(p) => w.creators[p].v
    case Stop(p) => if CreatorOf(w, p).Idle? then w.next else CreatorOf(w, p).v
    case FindCreating(_, v) => v
    case Own(v) => v
    case Orphan(v) => v
    case PickCreated(_, v) => v
    case PickDestroying(_, v) => v
    case PickFailed(_, v) => v
    case MarkDestroying(q) => w.collectors[q].v
    case LookupReal(q) => w.collectors[q].v
    case DestroyReal(q, _) => w.collectors[q].v
    case DeleteRow(q) => w.collectors[q].v
    case DeleteFailed(q) => w.collectors[q].v
    case _ => w.next
  }

  predicate Begins(s: Step)
  {
    s.Insert? || s.InsertChild? || s.FindCreating? || s.Acquire? || s.Lookup? || s.CreateReal?
  }

  predicate Ends(s: Step)
  {
    s.MarkFailed? || s.MarkCreated? || s.Stop?
  }

  lemma BeginKeepsVolume(w: World, s: Step, v: nat)
    requires Inv(w) && Enabled(w, s) && Begins(s)
    ensures VolumeOk(Do(w, s), v)
  {
    assert VolumeOk(w, v) && VolumeOk(w, w.next) && VolumeOk(w, Target(w, s)) && CreatorOk(w, s.p);
    if v in w.locks { assert CreatorOk(w, w.locks[v]); }
  }

  lemma EndKeepsVolume(w: World, s: Step, v: nat)
    requires Inv(w) && Enabled(w, s) && Ends(s)
    ensures VolumeOk(Do(w, s), v)
  {
    assert VolumeOk(w, v) && VolumeOk(w, Target(w, s)) && CreatorOk(w, s.p);
    if v in w.locks { assert CreatorOk(w, w.locks[v]); }
  }

  lemma DoomKeepsVolume(w: World, q: nat, v: nat)
    requires Inv(w) && Enabled(w, MarkDestroying(q))
    ensures VolumeOk(Do(w, MarkDestroying(q)), v)
  {
    assert VolumeOk(w, v) && CollectorOk(w, q);
  }

  lemma OtherKeepsVolume(w: World, s: Step, v: nat)
    requires Inv(w) && Enabled(w, s) && !Begins(s) && !Ends(s) && !s.MarkDestroying?
    ensures VolumeOk(Do(w, s), v)
  {
    assert VolumeOk(w, v) && VolumeOk(w, Target(w, s));
    if !s.Own? && !s.Orphan? { assert CollectorOk(w, s.q); }
  }

  lemma BeginKeepsCreator(w: World, s: Step, p: nat)
    requires Inv(w) && Enabled(w, s) && Begins(s)
    ensures CreatorOk(Do(w, s), p)
  {
    assert CreatorOk(w, p) && CreatorOk(w, s.p) && VolumeOk(w, Target(w, s)) && VolumeOk(w, w.next);
    if !CreatorOf(w, p).Idle? { assert VolumeOk(w, CreatorOf(w, p).v); }
  }

  lemma EndKeepsCreator(w: World, s: Step, p: nat)
    requires Inv(w) && Enabled(w, s) && Ends(s)
    ensures CreatorOk(Do(w, s), p)
  {
    assert CreatorOk(w, p) && CreatorOk(w, s.p) && VolumeOk(w, Target(w, s));
    if !CreatorOf(w, p).Idle? { assert VolumeOk(w, CreatorOf(w, p).v); }
  }

  lemma OtherKeepsCreator(w: World, s: Step, p: nat)
    requires Inv(w) && Enabled(w, s) && !Begins(s) && !Ends(s)
    ensures CreatorOk(Do(w, s), p)
  {
    assert CreatorOk(w, p) && VolumeOk(w, Target(w, s));
    if !s.Own? && !s.Orphan? { assert CollectorOk(w, s.q); }
    if !CreatorOf(w, p).Idle? { assert VolumeOk(w, CreatorOf(w, p).v); }
  }

  lemma StepKeepsVolume(w: World, s: Step, v: nat)
    requires Inv(w) && Enabled(w, s)
    ensures VolumeOk(Do(w, s), v)
  {
    hide Inv, Do, Enabled, VolumeOk;
    if Begins(s) {
      BeginKeepsVolume(w, s, v);
    } else if Ends(s) {
      EndKeepsVolume(w, s, v);
    } else if s.MarkDestroying? {
      DoomKeepsVolume(w, s.q, v);
    } else {
      OtherKeepsVolume(w, s, v);
    }
  }

  lemma StepKeepsCreator(w: World, s: Step, p: nat)
    requires Inv(w) && Enabled(w, s)
    ensures CreatorOk(Do(w, s), p)
  {
    hide Inv, Do, Enabled, CreatorOk;
    if Begins(s) {
      BeginKeepsCreator(w, s, p);
    } else if Ends(s) {
      EndKeepsCreator(w, s, p);
    } else {
      OtherKeepsCreator(w, s, p);
    }
  }

  lemma CreatorKeepsCollector(w: World, s: Step, q: nat)
    requires Inv(w) && Enabled(w, s) && (Begins(s) || Ends(s))
    ensures CollectorOk(Do(w, s), q)
  {
    assert CollectorOk(w, q) && VolumeOk(w, w.next);
  }

  lemma OtherKeepsCollector(w: World, s: Step, q: nat)
    requires Inv(w) && Enabled(w, s) && !Begins(s) && !Ends(s)
    ensures CollectorOk(Do(w, s), q)
  {
    assert CollectorOk(w, q) && VolumeOk(w, Target(w, s));
  }

  lemma StepKeepsCollector(w: World, s: Step, q: nat)
    requires Inv(w) && Enabled(w, s)
    ensures CollectorOk(Do(w, s), q)
  {
    hide Inv, Do, Enabled, CollectorOk;
    if Begins(s) || Ends(s) { CreatorKeepsCollector(w, s, q); } else { OtherKeepsCollector(w, s, q); }
  }

  lemma StepKeepsInv(w: World, s: Step)
    requires Inv(w) && Enabled(w, s)
    ensures Inv(Do(w, s))
  {
    hide Do, Enabled, VolumeOk, CreatorOk, CollectorOk;
    forall v: nat { StepKeepsVolume(w, s, v); }
    forall p: nat { StepKeepsCreator(w, s, p); }
    forall q: nat { StepKeepsCollector(w, s, q); }
  }

  lemma {:induction false} RunKeepsInv(w: World, steps: seq<Step>)
    requires Inv(w) && Allowed(w, steps)
    ensures Inv(Exec(w, steps))
    decreases |steps|
  {
    hide Do, Enabled, Inv;
    if steps != [] {
      StepKeepsInv(w, steps[0]);
      RunKeepsInv(Do(w, steps[0]), steps[1..]);
    }
  }

  // ---- What holds in every run -------------------------------------------------

  lemma StartIsOk()
    ensures Inv(START)
  {
  }

  /** In every reachable state a `created` row has its real volume, a child's parent
      row is `created`, and at most one creator works on a volume. */
  lemma CreatedRowsAreReal(steps: seq<Step>, v: nat)
    requires Allowed(START, steps)
    ensures var w := Exec(START, steps);
      && (StateOf(w, v) == Some(Created) ==> v in w.present)
      && (v in w.rows && w.rows[v].parent.Some? ==> StateOf(w, w.rows[v].parent.value) == Some(Created))
      && forall p: nat, p': nat | Holds(CreatorOf(w, p), v) && Holds(CreatorOf(w, p'), v) :: p == p'
  {
    var w := Exec(START, steps);
    StartIsOk();
    RunKeepsInv(START, steps);
    assert VolumeOk(w, v);
    forall p: nat, p': nat | Holds(CreatorOf(w, p), v) && Holds(CreatorOf(w, p'), v)
      ensures p == p'
    {
      assert CreatorOk(w, p) && CreatorOk(w, p');
    }
  }

  /** A row's state only moves forward: from `creating` anywhere, from `created` to
      `destroying`, and from `destroying` or `failed` to gone. */
  predicate Forward(from: Option<State>, to: Option<State>)
  {
    to == from || to == None || from == Some(Creating) || (from == Some(Created) && to == Some(Destroying))
  }

  lemma StepIsForward(w: World, s: Step, v: nat)
    requires Inv(w) && Enabled(w, s) && v < w.next
    ensures Forward(StateOf(w, v), StateOf(Do(w, s), v)) && v < Do(w, s).next
  {
    hide Inv, VolumeOk, CreatorOk, CollectorOk;
  }

  lemma {:induction false} StatesMoveForward(w: World, steps: seq<Step>, v: nat)
    requires Inv(w) && Allowed(w, steps) && v < w.next
    ensures Forward(StateOf(w, v), StateOf(Exec(w, steps), v))
    decreases |steps|
  {
    hide Do, Enabled, Inv, StateOf;
    if steps != [] {
      StepIsForward(w, steps[0], v);
      StepKeepsInv(w, steps[0]);
      StatesMoveForward(Do(w, steps[0]), steps[1..], v);
    }
  }

  /** A volume that has an owner is not picked for destruction before it is orphaned. */
  lemma OwnedIsNotPicked(w: World, v: nat, steps: seq<Step>, q: nat)
    requires Inv(w) && Enabled(w, Own(v)) && Allowed(Do(w, Own(v)), steps) && Orphan(v) !in steps
    ensures var u := Exec(Do(w, Own(v)), steps);
      !Enabled(u, PickCreated(q, v)) && !Enabled(u, PickDestroying(q, v))
  {
    hide Allowed, Exec;
    StepKeepsInv(w, Own(v));
    assert VolumeOk(w, v);
    OwnedStays(Do(w, Own(v)), steps, v);
  }

  lemma StepKeepsOwned(w: World, s: Step, v: nat)
    requires Enabled(w, s) && v < w.next && s != Orphan(v) && (v in w.rows ==> w.rows[v].owned)
    ensures var u := Do(w, s); v < u.next && (v in u.rows ==> u.rows[v].owned)
  {
  }

  lemma {:induction false} OwnedStays(w: World, steps: seq<Step>, v: nat)
    requires v < w.next && (v in w.rows ==> w.rows[v].owned) && Allowed(w, steps) && Orphan(v) !in steps
    ensures v in Exec(w, steps).rows ==> Exec(w, steps).rows[v].owned
    decreases |steps|
  {
    hide Do, Enabled;
    if steps != [] {
      StepKeepsOwned(w, steps[0], v);
      OwnedStays(Do(w, steps[0]), steps[1..], v);
    }
  }

  /** A collector that stopped is at rest until it picks a volume again. */
  lemma StoppedCollectorRests(w: World, q: nat, steps: seq<Step>)
    requires Allowed(Do(w, StopCollector(q)), steps) && forall s | s in steps :: !Picks(s, q)
    ensures CollectorOf(Exec(Do(w, StopCollector(q)), steps), q).Resting?
  {
    RestsOn(Do(w, StopCollector(q)), q, steps);
  }

  predicate Picks(s: Step, q: nat)
  {
    (s.PickCreated? || s.PickDestroying? || s.PickFailed?) && s.q == q
  }

  lemma {:induction false} RestsOn(w: World, q: nat, steps: seq<Step>)
    requires CollectorOf(w, q).Resting? && Allowed(w, steps) && forall s | s in steps :: !Picks(s, q)
    ensures CollectorOf(Exec(w, steps), q).Resting?
    decreases |steps|
  {
    hide Do, Enabled;
    if steps != [] {
      StepRests(w, q, steps[0]);
      RestsOn(Do(w, steps[0]), q, steps[1..]);
    }
  }

  lemma StepRests(w: World, q: nat, s: Step)
    requires CollectorOf(w, q).Resting? && Enabled(w, s) && !Picks(s, q)
    ensures CollectorOf(Do(w, s), q).Resting?
  {
  }

  // ---- Runs in which no creator works on a stale row ---------------------------

  /** The lock is taken only while the row is still `creating`. */
  predicate Fresh(w: World, s: Step)
    requires Enabled(w, s)
  {
    s.Acquire? ==> var v := w.creators[s.p].v; v in w.locks || StateOf(w, v) == Some(Creating)
  }

  predicate FreshRun(w: World, steps: seq<Step>)
    requires Allowed(w, steps)
    decreases |steps|
  {
    steps == [] || (Fresh(w, steps[0]) && FreshRun(Do(w, steps[0]), steps[1..]))
  }

  predicate VolumeClean(w: World, v: nat)
  {
    v in w.present ==> v in w.rows && !w.rows[v].state.Failed?
  }

  predicate CreatorClean(w: World, p: nat)
  {
    var c := CreatorOf(w, p);
    !c.Idle? && Holds(c, c.v) ==> StateOf(w, c.v) == Some(Creating)
  }

  predicate CollectorClean(w: World, q: nat)
  {
    CollectorOf(w, q).ToDelete? ==> CollectorOf(w, q).v !in w.present
  }

  /** Every real volume has a row, and not a failed one. */
  ghost predicate Clean(w: World)
  {
    && (forall v: nat {:trigger VolumeClean(w, v)} :: VolumeClean(w, v))
    && (forall p: nat {:trigger CreatorClean(w, p)} :: CreatorClean(w, p))
    && (forall q: nat {:trigger CollectorClean(w, q)} :: CollectorClean(w, q))
  }

  lemma StepKeepsVolumeClean(w: World, s: Step, v: nat)
    requires Inv(w) && Clean(w) && Enabled(w, s) && Fresh(w, s)
    ensures VolumeClean(Do(w, s), v)
  {
    assert VolumeClean(w, v) && VolumeOk(w, v);
    match s {
      case CreateReal(p, _) => assert CreatorClean(w, p);
      case MarkFailed(p) => assert CreatorOk(w, p);
      case DeleteRow(q) => assert CollectorClean(w, q);
      case _ =>
    }
  }

  lemma StepKeepsCreatorClean(w: World, s: Step, p: nat)
    requires Inv(w) && Clean(w) && Enabled(w, s) && Fresh(w, s)
    ensures CreatorClean(Do(w, s), p)
  {
    hide VolumeClean, CollectorClean, CollectorOk;
    assert CreatorClean(w, p) && CreatorOk(w, p) && VolumeOk(w, w.next);
    match s {
      case MarkFailed(p') => assert CreatorOk(w, p');
      case MarkCreated(p') => assert CreatorOk(w, p');
      case Lookup(p') => assert CreatorClean(w, p');
      case CreateReal(p', _) => assert CreatorClean(w, p');
      case _ =>
    }
  }

  lemma StepKeepsCollectorClean(w: World, s: Step, q: nat)
    requires Inv(w) && Clean(w) && Enabled(w, s) && Fresh(w, s)
    ensures CollectorClean(Do(w, s), q)
  {
    assert CollectorClean(w, q) && CollectorOk(w, q);
    if s.CreateReal? { assert CreatorClean(w, s.p); }
  }

  lemma StepKeepsClean(w: World, s: Step)
    requires Inv(w) && Clean(w) && Enabled(w, s) && Fresh(w, s)
    ensures Clean(Do(w, s))
  {
    hide Do, Enabled, Inv, Fresh, VolumeClean, CreatorClean, CollectorClean;
    forall v: nat { StepKeepsVolumeClean(w, s, v); }
    forall p: nat { StepKeepsCreatorClean(w, s, p); }
    forall q: nat { StepKeepsCollectorClean(w, s, q); }
  }

  lemma {:induction false} FreshRunKeepsClean(w: World, steps: seq<Step>)
    requires Inv(w) && Clean(w) && Allowed(w, steps) && FreshRun(w, steps)
    ensures Clean(Exec(w, steps))
    decreases |steps|
  {
    hide Do, Enabled, Inv, Fresh, Clean;
    if steps != [] {
      StepKeepsInv(w, steps[0]);
      StepKeepsClean(w, steps[0]);
      FreshRunKeepsClean(Do(w, steps[0]), steps[1..]);
    }
  }

  /** In such a run a real volume always has a row that is not `failed`: a failed
      row has none, and a row is deleted only after its volume is gone. */
  lemma NothingIsLeftBehind(steps: seq<Step>, v: nat)
    requires Allowed(START, steps) && FreshRun(START, steps)
    ensures var w := Exec(START, steps); v in w.present ==> v in w.rows && !w.rows[v].state.Failed?
  {
    StartIsOk();
    FreshRunKeepsClean(START, steps);
    assert VolumeClean(Exec(START, steps), v);
  }

  /** Once the parent of a row is `destroying` or gone, the row and its volume are gone. */
  lemma RowsGoFirst(w: World, steps: seq<Step>, child: nat, parent: nat)
    requires Inv(w) && Clean(w) && Allowed(w, steps) && FreshRun(w, steps)
    requires child in w.rows && w.rows[child].parent == Some(parent)
    requires StateOf(Exec(w, steps), parent) != Some(Created)
    ensures child !in Exec(w, steps).rows && child !in Exec(w, steps).present
  {
    var u := Exec(w, steps);
    RunKeepsInv(w, steps);
    FreshRunKeepsClean(w, steps);
    assert VolumeOk(w, child);
    assert VolumeOk(u, child) && VolumeClean(u, child);
    if child in u.rows { ParentsStay(w, steps, child); }
  }

  lemma StepKeepsParent(w: World, s: Step, v: nat)
    requires Inv(w) && Enabled(w, s) && v < w.next && v in Do(w, s).rows
    ensures v in w.rows && Do(w, s).rows[v].parent == w.rows[v].parent
  {
    hide Inv, VolumeOk, CreatorOk, CollectorOk;
  }

  lemma {:induction false} ParentsStay(w: World, steps: seq<Step>, v: nat)
    requires Inv(w) && Allowed(w, steps) && v < w.next && v in Exec(w, steps).rows
    ensures v in w.rows && Exec(w, steps).rows[v].parent == w.rows[v].parent
    decreases |steps|
  {
    hide Do, Enabled, Inv, StateOf;
    if steps != [] {
      StepKeepsInv(w, steps[0]);
      StepIsForward(w, steps[0], v);
      ParentsStay(Do(w, steps[0]), steps[1..], v);
      StepKeepsParent(w, steps[0], v);
    }
  }
}
