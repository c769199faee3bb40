/**
 * Any number of key switches at once, each working table by table from the rows its
 * query returned, among each other and among writes of running applications. Any of
 * them may stop anywhere and others may start.
 */
module KeyRuns {
  import opened Options
  import opened KeySwitch

  datatype RowId = RowId(table: string, id: nat)

  const TABLES: set<string> := {"teams", "resources", "jobs", "resource_types", "builds"}

  /** `left` are the tables the pass has still to query, `read` the rows its last
      query returned that it has still to handle. */
  datatype Run = Run(keys: Keys, pass: Pass, left: set<string>, read: map<RowId, Cell>) | Finished(keys: Keys) | Dead

  datatype World = World(cells: map<RowId, Cell>, runs: map<nat, Run>)

  datatype Step =
    | Begin(r: nat, keys: Keys)
    | Query(r: nat, table: string)
    | Row(r: nat, id: RowId)
    | Cut(r: nat)                     // an error while rows are read ends the table
    | Turn(r: nat)                    // the pass is over
    | Stop(r: nat)
    | Apply(id: RowId, cell: Cell)    // an application writes the column
    | Drop(id: RowId)                 // the row is deleted

  function First(keys: Keys): Run
  {
    if keys.oldKey.Some? then Run(keys, Switch, TABLES, map[])
    else if keys.newKey.Some? then Run(keys, Seal, TABLES, map[])
    else Finished(keys)
  }

  /** WHERE nonce IS [NOT] NULL. */
  predicate Selects(pass: Pass, c: Cell)
  {
    pass.Switch? <==> c.Sealed?
  }

  predicate Enabled(w: World, s: Step)
  {
    match s
    case Begin(r, _) => r !in w.runs
    case Query(r, table) => r in w.runs && w.runs[r].Run? && w.runs[r].read == map[] && table in w.runs[r].left
    case Row(r, id) => r in w.runs && w.runs[r].Run? && id in w.runs[r].read
    case Cut(r) => r in w.runs && w.runs[r].Run?
    case Turn(r) => r in w.runs && w.runs[r].Run? && w.runs[r].read == map[] && w.runs[r].left == {}
    case Stop(r) => r in w.runs
    case Apply(id, _) => id.table in TABLES
    case Drop(_) => true
  }

  function SetRun(w: World, r: nat, run: Run): World
  {
    w.(runs := w.runs[r := run])
  }

  function Do(w: World, s: Step): World
    requires Enabled(w, s)
  {
    match s
    case Begin(r, keys) => SetRun(w, r, First(keys))
    case Query(r, table) =>
      var run := w.runs[r];
      SetRun(w, r, run.(left := run.left - {table},
                        read := map id | id in w.cells && id.table == table && Selects(run.pass, w.cells[id]) ::
                                  w.cells[id]))
    case Row(r, id) =>
      var run := w.runs[r];
      var done := run.(read := run.read - {id});
      (match Handle(run.keys, run.pass, run.read[id])
       case Fail => SetRun(w, r, Dead)
       case Skip => SetRun(w, r, done)
       case Put(cell) => SetRun(if id in w.cells then w.(cells := w.cells[id := cell]) else w, r, done))
    case Cut(r) => SetRun(w, r, w.runs[r].(read := map[]))
    case Turn(r) =>
      var run := w.runs[r];
      var more := run.pass.Switch? && run.keys.newKey.Some?;
      SetRun(w, r, if more then Run(run.keys, Seal, TABLES, map[]) else Finished(run.keys))
    case Stop(r) => SetRun(w, r, Dead)
    case Apply(id, cell) => w.(cells := w.cells[id := cell])
    case Drop(id) => w.(cells := w.cells - {id})
  }

  predicate Allowed(w: World, steps: seq<Step>)
    decreases |steps|
  {
    steps == [] || (Enabled(w, steps[0]) && Allowed(Do(w, steps[0]), steps[1..]))
  }

  function Exec(w: World, steps: seq<Step>): World
    requires Allowed(w, steps)
    decreases |steps|
  {
    if steps == [] then w else Exec(Do(w, steps[0]), steps[1..])
  }

  // ---- No text is lost ---------------------------------------------------------

  /** Run `r` has read the row and will put it back. */
  predicate Holding(w: World, r: nat, id: RowId)
  {
    && r in w.runs && w.runs[r].Run? && id in w.runs[r].read
    && Handle(w.runs[r].keys, w.runs[r].pass, w.runs[r].read[id]).Put?
  }

  /** Every row a run will put back reads as it does in the table. */
  ghost predicate InStep(w: World)
  {
    forall r: nat, id: RowId {:trigger Holding(w, r, id)} ::
      Holding(w, r, id) && id in w.cells ==> Text(w.runs[r].read[id]) == Text(w.cells[id])
  }

  /** An application write that no run can undo: whoever will put the row back has
      read the same text. */
  ghost predicate Calm(w: World, s: Step)
  {
    s.Apply? ==>
      forall r: nat {:trigger Holding(w, r, s.id)} :: Holding(w, r, s.id) ==> Text(w.runs[r].read[s.id]) == Text(s.cell)
  }

  ghost predicate CalmRun(w: World, steps: seq<Step>)
    requires Allowed(w, steps)
    decreases |steps|
  {
    steps == [] || (Calm(w, steps[0]) && CalmRun(Do(w, steps[0]), steps[1..]))
  }

  function Actual(w: World, id: RowId): Option<Option<string>>
  {
    if id in w.cells then Some(Text(w.cells[id])) else None
  }

  /** What applications alone make of a row's text; None for a missing row. */
  function Intended(t: Option<Option<string>>, steps: seq<Step>, id: RowId): Option<Option<string>>
    decreases |steps|
  {
    if steps == [] then t else Intended(Applied(t, steps[0], id), steps[1..], id)
  }

  function Applied(t: Option<Option<string>>, s: Step, id: RowId): Option<Option<string>>
  {
    if s.Apply? && s.id == id then Some(Text(s.cell)) else if s.Drop? && s.id == id then None else t
  }

  lemma StepKeepsInStep(w: World, s: Step)
    requires InStep(w) && Enabled(w, s) && Calm(w, s)
    ensures InStep(Do(w, s))
  {
    var u := Do(w, s);
    forall r: nat, id: RowId | Holding(u, r, id) && id in u.cells
      ensures Text(u.runs[r].read[id]) == Text(u.cells[id])
    {
      if s.Row? {
        HandleKeepsText(w.runs[s.r].keys, w.runs[s.r].pass, w.runs[s.r].read[s.id]);
        assert s.id in w.cells && Handle(w.runs[s.r].keys, w.runs[s.r].pass, w.runs[s.r].read[s.id]).Put? ==>
          Holding(w, s.r, s.id);
      }
      assert (s.Query? && s.r == r) || Holding(w, r, id);
    }
  }

  /** A key switch step changes no text. */
  lemma StepKeepsText(w: World, s: Step, id: RowId)
    requires InStep(w) && Enabled(w, s)
    ensures Actual(Do(w, s), id) == Applied(Actual(w, id), s, id)
  {
    if s.Row? {
      HandleKeepsText(w.runs[s.r].keys, w.runs[s.r].pass, w.runs[s.r].read[s.id]);
      assert Handle(w.runs[s.r].keys, w.runs[s.r].pass, w.runs[s.r].read[s.id]).Put? ==> Holding(w, s.r, s.id);
    }
  }

  /** Whatever runs, crashes and interleaves, and whatever their keys, every row
      reads as the applications left it, if no application changes the text of a row
      that some run has read and will put back. */
  lemma {:induction false} TextIsKept(w: World, steps: seq<Step>, id: RowId)
    requires InStep(w) && Allowed(w, steps) && CalmRun(w, steps)
    ensures Actual(Exec(w, steps), id) == Intended(Actual(w, id), steps, id)
    decreases |steps|
  {
    hide Do, Enabled, InStep, Calm;
    if steps != [] {
      StepKeepsText(w, steps[0], id);
      StepKeepsInStep(w, steps[0]);
      TextIsKept(Do(w, steps[0]), steps[1..], id);
    }
  }

  /** The condition is needed: a write to a row that a run has read and will put
      back survives that run exactly when it did not change the text. */
  lemma HeldWriteSurvivesIff(w: World, r: nat, id: RowId, cell: Cell)
    requires InStep(w) && Holding(w, r, id) && id in w.cells && id.table in TABLES
    ensures var u := Do(w, Apply(id, cell));
      Enabled(u, Row(r, id)) && (Actual(Do(u, Row(r, id)), id) == Actual(u, id) <==> Text(cell) == Text(w.cells[id]))
  {
    HandleKeepsText(w.runs[r].keys, w.runs[r].pass, w.runs[r].read[id]);
  }

  /** One application write is safe in every continuation exactly when it is calm. */
  lemma WriteIsSafeIff(w: World, id: RowId, cell: Cell)
    requires InStep(w) && id.table in TABLES
    ensures var u := Do(w, Apply(id, cell));
      Calm(w, Apply(id, cell)) <==>
      forall steps | Allowed(u, steps) && CalmRun(u, steps) ::
        Actual(Exec(u, steps), id) == Intended(Actual(u, id), steps, id)
  {
    var u := Do(w, Apply(id, cell));
    if Calm(w, Apply(id, cell)) {
      StepKeepsInStep(w, Apply(id, cell));
      forall steps | Allowed(u, steps) && CalmRun(u, steps)
        ensures Actual(Exec(u, steps), id) == Intended(Actual(u, id), steps, id)
      {
        TextIsKept(u, steps, id);
      }
    } else {
      var r: nat :| Holding(w, r, id) && Text(w.runs[r].read[id]) != Text(cell);
      PutBackWins(w, r, id, cell);
    }
  }

  lemma PutBackWins(w: World, r: nat, id: RowId, cell: Cell)
    requires Holding(w, r, id) && Text(w.runs[r].read[id]) != Text(cell) && id.table in TABLES
    ensures var u, steps := Do(w, Apply(id, cell)), [Row(r, id)];
      Allowed(u, steps) && CalmRun(u, steps) && Actual(Exec(u, steps), id) != Intended(Actual(u, id), steps, id)
  {
    HandleKeepsText(w.runs[r].keys, w.runs[r].pass, w.runs[r].read[id]);
    var u, steps := Do(w, Apply(id, cell)), [Row(r, id)];
    var v := Do(u, Row(r, id));
    assert steps[1..] == [] && steps[0] == Row(r, id);
    assert Allowed(v, []) && Exec(v, []) == v && CalmRun(v, []);
    assert Intended(Actual(u, id), steps, id) == Intended(Applied(Actual(u, id), steps[0], id), [], id);
  }

  // ---- What a finished run leaves ------------------------------------------------

  predicate PassDone(keys: Keys, pass: Pass, c: Cell)
  {
    match pass
    case Switch => !c.Sealed? || keys.newKey == Some(c.key)
    case Seal => Target(keys, c)
  }

  /** What a step writes to the row; None if it does not write it. */
  function Written(w: World, s: Step, id: RowId): Option<Cell>
    requires Enabled(w, s)
  {
    match s
    case Apply(i, cell) => if i == id then Some(cell) else None
    case Row(r, i) =>
      var h := Handle(w.runs[r].keys, w.runs[r].pass, w.runs[r].read[i]);
      if i == id && i in w.cells && h.Put? then Some(h.cell) else None
    case _ => None
  }

  /** Run `r` will not query for this cell any more: its table has been queried in the
      pass that handles such cells. */
  predicate Past(w: World, r: nat, id: RowId, c: Cell)
  {
    && r in w.runs && !w.runs[r].Dead?
    && (w.runs[r].Run? ==>
          if w.runs[r].pass.Switch? then c.Sealed? && id.table !in w.runs[r].left
          else c.Sealed? || id.table !in w.runs[r].left)
  }

  /** Whether run `r` has missed the row, given that it had or had not before `s`: what is
      written last is not in the promised form and comes too late for it, or its reading
      breaks before the row, which is not yet in order. */
  predicate MissedBy(missed: bool, w: World, s: Step, keys: Keys, r: nat, id: RowId)
    requires Enabled(w, s)
  {
    if s == Drop(id) then false
    else if Written(w, s, id).Some? then
      !Target(keys, Written(w, s, id).value) && Past(w, r, id, Written(w, s, id).value)
    else if s == Cut(r) && id in w.runs[r].read && id in w.cells then
      missed || !PassDone(keys, w.runs[r].pass, w.cells[id])
    else missed
  }

  predicate Misses(missed: bool, w: World, steps: seq<Step>, keys: Keys, r: nat, id: RowId)
    requires Allowed(w, steps)
    decreases |steps|
  {
    if steps == [] then missed
    else Misses(MissedBy(missed, w, steps[0], keys, r, id), Do(w, steps[0]), steps[1..], keys, r, id)
  }

  /** The pass is one the keys call for, and rows are read from tables queried. */
  predicate RunOk(run: Run)
  {
    run.Run? ==>
      && (if run.pass.Switch? then run.keys.oldKey.Some? else run.keys.newKey.Some?)
      && (forall i | i in run.read :: i.table !in run.left)
  }

  /** How far a run has got with a cell it has not missed. */
  predicate Progress(run: Run, id: RowId, c: Cell)
  {
    match run
    case Dead => true
    case Finished(keys) => Target(keys, c)
    case Run(keys, pass, left, read) =>
      && (pass.Seal? && keys.oldKey.Some? ==> PassDone(keys, Switch, c))
      && (id.table !in left && id !in read ==> PassDone(keys, pass, c))
      && (id in read && Handle(keys, pass, read[id]).Skip? ==> PassDone(keys, pass, c))
  }

  /** What a run has missed is not in the promised form; with what it has not missed it
      has got as far as it should. */
  predicate MissedOk(missed: bool, w: World, keys: Keys, r: nat, id: RowId)
  {
    && (forall i | i in w.cells :: i.table in TABLES)
    && (r !in w.runs ==> !missed)
    && (r in w.runs && !w.runs[r].Dead? && w.runs[r].keys == keys ==>
          && RunOk(w.runs[r])
          && (missed ==> id in w.cells && !Target(keys, w.cells[id]))
          && (!missed && id in w.cells ==> Progress(w.runs[r], id, w.cells[id])))
  }

  lemma PutIsTarget(keys: Keys, pass: Pass, c: Cell)
    requires Handle(keys, pass, c).Put?
    ensures Target(keys, Handle(keys, pass, c).cell)
    ensures keys.oldKey.Some? ==> PassDone(keys, Switch, Handle(keys, pass, c).cell)
  {
  }

  lemma RowKeepsMissedOk(missed: bool, w: World, s: Step, keys: Keys, r: nat, id: RowId)
    requires MissedOk(missed, w, keys, r, id) && Enabled(w, s) && s.Row?
    ensures MissedOk(MissedBy(missed, w, s, keys, r, id), Do(w, s), keys, r, id)
  {
    var run := w.runs[s.r];
    if Handle(run.keys, run.pass, run.read[s.id]).Put? { PutIsTarget(run.keys, run.pass, run.read[s.id]); }
  }

  lemma WriteKeepsMissedOk(missed: bool, w: World, s: Step, keys: Keys, r: nat, id: RowId)
    requires MissedOk(missed, w, keys, r, id) && Enabled(w, s) && (s.Apply? || s.Drop?)
    ensures MissedOk(MissedBy(missed, w, s, keys, r, id), Do(w, s), keys, r, id)
  {
    hide Handle;
  }

  lemma RunStepKeepsMissedOk(missed: bool, w: World, s: Step, keys: Keys, r: nat, id: RowId)
    requires MissedOk(missed, w, keys, r, id) && Enabled(w, s) && !s.Row? && !s.Apply? && !s.Drop?
    ensures MissedOk(MissedBy(missed, w, s, keys, r, id), Do(w, s), keys, r, id)
  {
  }

  lemma StepKeepsMissedOk(missed: bool, w: World, s: Step, keys: Keys, r: nat, id: RowId)
    requires MissedOk(missed, w, keys, r, id) && Enabled(w, s)
    ensures MissedOk(MissedBy(missed, w, s, keys, r, id), Do(w, s), keys, r, id)
  {
    hide MissedOk, MissedBy, Do, Enabled;
    if s.Row? {
      RowKeepsMissedOk(missed, w, s, keys, r, id);
    } else if s.Apply? || s.Drop? {
      WriteKeepsMissedOk(missed, w, s, keys, r, id);
    } else {
      RunStepKeepsMissedOk(missed, w, s, keys, r, id);
    }
  }

  lemma {:induction false} RunKeepsMissedOk(missed: bool, w: World, steps: seq<Step>, keys: Keys, r: nat, id: RowId)
    requires MissedOk(missed, w, keys, r, id) && Allowed(w, steps)
    ensures MissedOk(Misses(missed, w, steps, keys, r, id), Exec(w, steps), keys, r, id)
    decreases |steps|
  {
    hide Do, Enabled, MissedOk, MissedBy;
    if steps != [] {
      StepKeepsMissedOk(missed, w, steps[0], keys, r, id);
      RunKeepsMissedOk(MissedBy(missed, w, steps[0], keys, r, id), Do(w, steps[0]), steps[1..], keys, r, id);
    }
  }

  /** Once a run has finished, a cell is in the form it promises exactly when the run has
      not missed it, whatever others do with whatever keys. */
  lemma FinishedMeansSwitchedIff(w: World, steps: seq<Step>, r: nat, id: RowId)
    requires w.runs == map[] && (forall i | i in w.cells :: i.table in TABLES) && Allowed(w, steps)
    requires r in Exec(w, steps).runs && Exec(w, steps).runs[r].Finished? && id in Exec(w, steps).cells
    ensures var now, keys := Exec(w, steps), Exec(w, steps).runs[r].keys;
      Target(keys, now.cells[id]) <==> !Misses(false, w, steps, keys, r, id)
  {
    var keys := Exec(w, steps).runs[r].keys;
    RunKeepsMissedOk(false, w, steps, keys, r, id);
  }

  /** Every run uses these keys, applications write the promised form, and `r` is not cut. */
  predicate Orderly(keys: Keys, r: nat, s: Step)
  {
    (s.Begin? ==> s.keys == keys) && (s.Apply? ==> Target(keys, s.cell)) && s != Cut(r)
  }

  predicate SameKeys(w: World, keys: Keys)
  {
    forall r | r in w.runs && !w.runs[r].Dead? :: w.runs[r].keys == keys
  }

  lemma OrderlyStep(w: World, s: Step, keys: Keys, r: nat, id: RowId)
    requires SameKeys(w, keys) && Enabled(w, s) && Orderly(keys, r, s)
    ensures SameKeys(Do(w, s), keys) && !MissedBy(false, w, s, keys, r, id)
  {
    if s.Row? && Handle(keys, w.runs[s.r].pass, w.runs[s.r].read[s.id]).Put? {
      PutIsTarget(keys, w.runs[s.r].pass, w.runs[s.r].read[s.id]);
    }
  }

  lemma {:induction false} OrderlyMissesNothing(w: World, steps: seq<Step>, keys: Keys, r: nat, id: RowId)
    requires SameKeys(w, keys) && Allowed(w, steps) && forall s | s in steps :: Orderly(keys, r, s)
    ensures SameKeys(Exec(w, steps), keys) && !Misses(false, w, steps, keys, r, id)
    decreases |steps|
  {
    hide Do, Enabled, MissedBy, Orderly, SameKeys;
    if steps != [] {
      OrderlyStep(w, steps[0], keys, r, id);
      OrderlyMissesNothing(Do(w, steps[0]), steps[1..], keys, r, id);
    }
  }

  /** So if applications write the promised form and its own reading does not break, a
      finished run leaves every cell in it, however many others with the same keys
      crashed, broke or are still at work. */
  lemma FinishedMeansSwitched(w: World, keys: Keys, steps: seq<Step>, r: nat, id: RowId)
    requires w.runs == map[] && (forall i | i in w.cells :: i.table in TABLES)
    requires Allowed(w, steps) && forall s | s in steps :: Orderly(keys, r, s)
    requires r in Exec(w, steps).runs && Exec(w, steps).runs[r].Finished? && id in Exec(w, steps).cells
    ensures Target(keys, Exec(w, steps).cells[id])
  {
    OrderlyMissesNothing(w, steps, keys, r, id);
    FinishedMeansSwitchedIff(w, steps, r, id);
  }

  // ---- Runs that miss a cell -------------------------------------------------------

  lemma {:induction false} Chain(w: World, first: seq<Step>, second: seq<Step>) returns (steps: seq<Step>)
    requires Allowed(w, first) && Allowed(Exec(w, first), second)
    ensures steps == first + second && Allowed(w, steps) && Exec(w, steps) == Exec(Exec(w, first), second)
    decreases |first|
  {
    hide Do, Enabled;
    if first == [] {
      steps := second;
    } else {
      var rest := Chain(Do(w, first[0]), first[1..], second);
      steps := [first[0]] + rest;
      assert steps[1..] == rest && steps == first + second;
    }
  }

  lemma Single(w: World, s: Step) returns (steps: seq<Step>)
    requires Enabled(w, s)
    ensures steps == [s] && Allowed(w, steps) && Exec(w, steps) == Do(w, s)
  {
    steps := [s];
    assert Allowed(Do(w, s), []) && Exec(Do(w, s), []) == Do(w, s);
  }

  /** A run queries the tables left, and none has a row for this pass. */
  lemma {:induction false} QueryAll(w: World, r: nat) returns (steps: seq<Step>)
    requires r in w.runs && w.runs[r].Run? && w.runs[r].read == map[]
    requires forall id | id in w.cells && id.table in w.runs[r].left :: !Selects(w.runs[r].pass, w.cells[id])
    ensures Allowed(w, steps) && Exec(w, steps) == SetRun(w, r, w.runs[r].(left := {}))
    ensures forall s | s in steps :: s.Query?
    decreases |w.runs[r].left|
  {
    hide Allowed, Exec;
    var run := w.runs[r];
    if run.left == {} {
      steps := Nothing(w);
      assert w.runs[r := run] == w.runs;
    } else {
      var table :| table in run.left;
      var u := Do(w, Query(r, table));
      assert u == SetRun(w, r, run.(left := run.left - {table}));
      var query := Single(w, Query(r, table));
      var rest := QueryAll(u, r);
      steps := Chain(w, query, rest);
    }
  }

  lemma Nothing(w: World) returns (steps: seq<Step>)
    ensures steps == [] && Allowed(w, steps) && Exec(w, steps) == w
  {
    steps := [];
  }

  /** And turns to the next pass or is finished. */
  lemma EndPass(w: World, r: nat) returns (steps: seq<Step>)
    requires r in w.runs && w.runs[r].Run? && w.runs[r].read == map[]
    requires forall id | id in w.cells && id.table in w.runs[r].left :: !Selects(w.runs[r].pass, w.cells[id])
    ensures Allowed(w, steps) && forall s | s in steps :: s.Query? || s.Turn?
    ensures
      var keys := w.runs[r].keys;
      var more := w.runs[r].pass.Switch? && keys.newKey.Some?;
      Exec(w, steps) == SetRun(w, r, if more then Run(keys, Seal, TABLES, map[]) else Finished(keys))
  {
    hide Allowed, Exec, Selects;
    steps := QueryAll(w, r);
    var turn := Single(Exec(w, steps), Turn(r));
    steps := Chain(w, steps, turn);
  }

  /** A rotation whose reading breaks before a row reports success and leaves the row
      under the old key: nobody else does anything. */
  lemma CutRunLeavesOldKey(id: RowId, a: Key, b: Key, text: string) returns (w: World, steps: seq<Step>)
    requires id.table in TABLES && a != b
    ensures w.runs == map[] && Allowed(w, steps) && forall s | s in steps :: !s.Apply?
    ensures Exec(w, steps) == World(map[id := Sealed(a, text)], map[0 := Finished(Keys(Some(a), Some(b)))])
    ensures !Target(Keys(Some(a), Some(b)), Sealed(a, text))
  {
    hide Allowed, Exec;
    var keys := Keys(Some(a), Some(b));
    w := World(map[id := Sealed(a, text)], map[]);
    steps := Single(w, Begin(0, keys));
    var w1 := Do(w, Begin(0, keys));
    var next := Single(w1, Query(0, id.table));
    steps := Chain(w, steps, next);
    var w2 := Do(w1, Query(0, id.table));
    next := Single(w2, Cut(0));
    steps := Chain(w, steps, next);
    next := EndPass(Do(w2, Cut(0)), 0);
    steps := Chain(w, steps, next);
    next := EndPass(Exec(w, steps), 0);
    steps := Chain(w, steps, next);
    assert Exec(w, steps).runs == map[0 := Finished(keys)];
  }

  /** And one write under the old key, by an application not yet restarted, stays after a
      rotation that broke nowhere. */
  lemma OldKeyWriteStays(id: RowId, a: Key, b: Key, text: string) returns (w: World, steps: seq<Step>)
    requires id.table in TABLES && a != b
    ensures w.runs == map[] && Allowed(w, steps) && forall s | s in steps :: !s.Cut?
    ensures Exec(w, steps) == World(map[id := Sealed(a, text)], map[0 := Finished(Keys(Some(a), Some(b)))])
    ensures !Target(Keys(Some(a), Some(b)), Sealed(a, text))
  {
    hide Allowed, Exec;
    var keys := Keys(Some(a), Some(b));
    w := World(map[], map[]);
    steps := Single(w, Begin(0, keys));
    var next := EndPass(Exec(w, steps), 0);
    steps := Chain(w, steps, next);
    next := EndPass(Exec(w, steps), 0);
    steps := Chain(w, steps, next);
    next := Single(Exec(w, steps), Apply(id, Sealed(a, text)));
    steps := Chain(w, steps, next);
    assert Exec(w, steps).runs == map[0 := Finished(keys)];
  }

  /** For example, a build that finishes while a rotation holds its row gets back the
      engine metadata it cleared. */
  lemma ClearedMetadataComesBack()
    ensures
      var id := RowId("builds", 1);
      var w := World(map[id := Sealed("a", "plan")], map[]);
      var steps := [Begin(0, Keys(Some("a"), Some("b"))), Query(0, "builds"), Apply(id, Null), Row(0, id)];
      Allowed(w, steps) && Exec(w, steps).cells[id] == Sealed("b", "plan")
  {
    var id := RowId("builds", 1);
    var w := World(map[id := Sealed("a", "plan")], map[]);
    var steps := [Begin(0, Keys(Some("a"), Some("b"))), Query(0, "builds"), Apply(id, Null), Row(0, id)];
    var w1 := Do(w, steps[0]);
    var w2 := Do(w1, steps[1]);
    var w3 := Do(w2, steps[2]);
    assert w2.runs[0].read == map[id := Sealed("a", "plan")];
    assert steps[1..][1..][1..] == [Row(0, id)];
    assert Allowed(w3, [Row(0, id)]) && Exec(w3, [Row(0, id)]) == Do(w3, Row(0, id));
    assert steps[1..][1..][0] == steps[2] && steps[1..][0] == steps[1];
    assert Allowed(w2, steps[1..][1..]) && Exec(w2, steps[1..][1..]) == Do(w3, Row(0, id));
    assert Allowed(w1, steps[1..]) && Exec(w1, steps[1..]) == Do(w3, Row(0, id));
  }
}
