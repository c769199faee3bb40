/**
 * The build event log and one client following it: writers appending through
 * the per-build sequence, the NOTIFY path with its lossy one-slot channels, the
 * condition notifier, the collecting goroutine and the HTTP handler that
 * resumes from Last-Event-ID.
 *
 * Every transaction, query and channel operation is one step; the theorems are
 * about every sequence of enabled steps.
 */
module EventStream {
  import opened Options

  datatype Event = Log(payload: string) | Final(status: string)

  datatype Row = Row(id: nat, event: Event)

  // ---- State -----------------------------------------------------------------

  /** The build's rows in event_id order, its sequence, and `builds.completed`.
      `Finish` drops the sequence, so no row can be added once it committed. */
  datatype Table = Table(rows: seq<Row>, nextId: nat, completed: bool)

  datatype Watcher = Checking | Listening

  /** From a writer's commit to the collector's channel. `unsent` writers have
      committed and not yet notified; `queued` is what the database still holds
      for this listener; `inbox` is the listener's channel (false is the nil sent
      after a reconnect); `sink` and `token` are the one-slot channels. `lost` says
      that a writer died before its NOTIFY when the collector was past what it wrote,
      and that no NOTIFY, reconnect or new look at the log has come since. */
  datatype Wire = Wire(unsent: nat, connected: bool, queued: nat, inbox: seq<bool>,
                       sink: Option<bool>, watcher: Watcher, token: bool, lost: bool)

  datatype Reason = EndOfStream | Stopped | QueryFailed

  datatype Collector =
    | Looping
    | ReadCompleted(completed: bool)
    | Sending(completed: bool, batch: seq<Event>, returned: nat)
    | Waiting
    | Closed(reason: Reason)

  /** An event as the client gets it: the handler numbers what it writes. */
  datatype Received = Received(id: nat, event: Event)

  /** `cut` says that the iteration over the collector's last batch broke with rows
      left, and that it has not looked again since. `from` is the offset of the
      client's very first request, `resume` the number the handler gives to what it
      writes next, which is also what a new connection would ask for (one more than
      the Last-Event-ID). `got` are the events and `ends` the ids of the end events
      received over all its connections. */
  datatype World = World(table: Table, wire: Wire, collector: Collector, cut: bool, cursor: nat, buffer: seq<Event>,
                         from: nat, resume: nat, got: seq<Received>, ends: set<nat>)

  const CAPACITY: nat := 2000      // cap(source.events), also the batch size

  // ---- Steps -----------------------------------------------------------------

  datatype Step =
    | SaveEvent(event: Event) | Finish(status: string) | RollBack | Notify | Die
    | Break | Reconnect | Arrive | Dispatch
    | Check | Hear
    | QueryCompleted | QueryRows | SendRow | CutShort | EndBatch | WakeUp | Stop | FailQuery
    | Receive | ReceiveEnd | Resubscribe

  predicate Enabled(w: World, s: Step)
  {
    match s
    case SaveEvent(event) => !w.table.completed && event.Log?
    case Finish(_) => !w.table.completed
    case RollBack => !w.table.completed
    case Notify => w.wire.unsent > 0
    case Die => w.wire.unsent > 0
    case Break => w.wire.connected
    case Reconnect => !w.wire.connected
    case Arrive => w.wire.connected && w.wire.queued > 0
    case Dispatch => w.wire.inbox != []
    case Check => w.wire.watcher.Checking?
    case Hear => w.wire.watcher.Listening? && w.wire.sink.Some?
    case QueryCompleted => w.collector.Looping?
    case QueryRows => w.collector.ReadCompleted?
    case SendRow => w.collector.Sending? && w.collector.batch != [] && |w.buffer| < CAPACITY
    case CutShort => w.collector.Sending? && w.collector.batch != []
    case EndBatch => w.collector.Sending? && w.collector.batch == []
    case WakeUp => w.collector.Waiting? && w.wire.token
    case Stop => !w.collector.Closed?
    case FailQuery => w.collector.Looping? || w.collector.ReadCompleted? || w.collector.Sending?
    case Receive => w.buffer != []
    case ReceiveEnd => w.buffer == [] && w.collector == Closed(EndOfStream) && w.resume == w.cursor
    case Resubscribe => true
  }

  function Append(t: Table, event: Event): Table
  {
    Table(t.rows + [Row(t.nextId, event)], t.nextId + 1, event.Final?)
  }

  /** A full one-slot channel drops what is sent to it. */
  function Offer(slot: Option<bool>, value: bool): Option<bool>
  {
    if slot.None? then Some(value) else slot
  }

  function Events(rows: seq<Row>): (es: seq<Event>)
    ensures |es| == |rows| && forall i | 0 <= i < |es| :: es[i] == rows[i].event
  {
    seq(|rows|, i requires 0 <= i < |rows| => rows[i].event)
  }

  /** SELECT ... ORDER BY event_id OFFSET offset LIMIT limit. */
  function Query(rows: seq<Row>, offset: nat, limit: nat): seq<Event>
  {
    if offset >= |rows| then []
    else if |rows| - offset <= limit then Events(rows[offset..])
    else Events(rows[offset..offset + limit])
  }

  function Do(w: World, s: Step): World
    requires Enabled(w, s)
  {
    match s
    // a writer: SaveEvent or Finish commits, then notifies; a rolled back
    // transaction has used up an id
    case SaveEvent(event) => w.(table := Append(w.table, event), wire := w.wire.(unsent := w.wire.unsent + 1))
    case Finish(status) => w.(table := Append(w.table, Final(status)), wire := w.wire.(unsent := w.wire.unsent + 1))
    case RollBack => w.(table := w.table.(nextId := w.table.nextId + 1))
    case Notify =>
      w.(wire := w.wire.(unsent := w.wire.unsent - 1, lost := false,
                         queued := if w.wire.connected then w.wire.queued + 1 else w.wire.queued))
    case Die => w.(wire := w.wire.(unsent := w.wire.unsent - 1, lost := w.wire.lost || Unseen(w)))
    // the listener's connection: what was in flight is lost, and the listener
    // sends a nil once it is back
    case Break => w.(wire := w.wire.(connected := false, queued := 0))
    case Reconnect => w.(wire := w.wire.(connected := true, lost := false, inbox := w.wire.inbox + [false]))
    case Arrive => w.(wire := w.wire.(queued := w.wire.queued - 1, inbox := w.wire.inbox + [true]))
    case Dispatch => w.(wire := w.wire.(inbox := w.wire.inbox[1..], sink := Offer(w.wire.sink, w.wire.inbox[0])))
    // the condition notifier; the condition of an event stream is constantly true
    case Check => w.(wire := w.wire.(watcher := Listening, token := true))
    case Hear =>
      if w.wire.sink.value then w.(wire := w.wire.(sink := None, token := true))
      else w.(wire := w.wire.(sink := None, watcher := Checking))
    // the collector
    case QueryCompleted => w.(collector := ReadCompleted(w.table.completed))
    case QueryRows =>
      w.(collector := Sending(w.collector.completed, Query(w.table.rows, w.cursor, CAPACITY), 0))
    case SendRow =>
      w.(collector := Sending(w.collector.completed, w.collector.batch[1..], w.collector.returned + 1),
         cursor := w.cursor + 1, buffer := w.buffer + [w.collector.batch[0]])
    // an error while rows are read ends the loop like the last row does
    case CutShort => w.(collector := Sending(w.collector.completed, [], w.collector.returned), cut := true)
    case EndBatch =>
      if w.collector.returned == CAPACITY then w.(collector := Looping, wire := w.wire.(lost := false))
      else w.(collector := if w.collector.completed then Closed(EndOfStream) else Waiting)
    case WakeUp => w.(collector := Looping, cut := false, wire := w.wire.(token := false, lost := false))
    case Stop => w.(collector := Closed(Stopped))
    case FailQuery => w.(collector := Closed(QueryFailed))
    // the client; a new connection asks for the event after the last one it got
    // (the end event carries an id too)
    case Receive =>
      w.(got := w.got + [Received(w.resume, w.buffer[0])], buffer := w.buffer[1..], resume := w.resume + 1)
    case ReceiveEnd => w.(ends := w.ends + {w.resume}, resume := w.resume + 1)
    case Resubscribe =>
      w.(collector := Looping, cut := false, cursor := w.resume, buffer := [],
         wire := w.wire.(sink := None, watcher := Checking, token := false, lost := false))
  }

  predicate Initial(w: World)
  {
    && TableOk(w.table)
    && w.wire.sink.None? && w.wire.watcher.Checking? && !w.wire.token && !w.wire.lost
    && w.collector.Looping? && !w.cut && w.cursor == w.from == w.resume
    && w.buffer == [] && w.got == [] && w.ends == {}
  }

  predicate Allowed(w: World, steps: seq<Step>)
    decreases steps
  {
    steps == [] || (Enabled(w, steps[0]) && Allowed(Do(w, steps[0]), steps[1..]))
  }

  function Exec(w: World, steps: seq<Step>): World
    requires Allowed(w, steps)
    decreases steps
  {
    if steps == [] then w else Exec(Do(w, steps[0]), steps[1..])
  }

  // ---- The invariant ---------------------------------------------------------

  /** Ids increase (with gaps), and the status event written by Finish is the
      last row exactly when the build is completed. */
  predicate TableOk(t: Table)
  {
    && (forall i | 0 <= i < |t.rows| :: t.rows[i].id < t.nextId)
    && (forall i, j | 0 <= i < j < |t.rows| :: t.rows[i].id < t.rows[j].id)
    && (t.completed ==> t.rows != [])
    && (forall i | 0 <= i < |t.rows| :: t.rows[i].event.Final? <==> t.completed && i == |t.rows| - 1)
  }

  /** `es` are the rows of the log that start at `at`. */
  predicate IsWindow(rows: seq<Row>, at: nat, es: seq<Event>)
  {
    es == [] || (at + |es| <= |rows| && es == Events(rows[at..at + |es|]))
  }

  /** A batch shorter than the limit. */
  predicate ShortRead(c: Collector)
  {
    c.Sending? && c.returned + |c.batch| < CAPACITY
  }

  /** The collector will go to sleep, or sleeps, without having seen this. */
  predicate Unseen(w: World)
  {
    match w.collector
    case ReadCompleted(completed) => w.table.completed && !completed
    case Sending(completed, batch, _) =>
      || (w.table.completed && !completed)
      || (ShortRead(w.collector) && |w.table.rows| > w.cursor + |batch|)
    case Waiting => w.table.completed || |w.table.rows| > w.cursor
    case _ => false
  }

  /** Something on the way will end in a token. */
  predicate WakeUpPending(w: Wire)
  {
    w.token || w.sink.Some? || w.inbox != [] || w.queued > 0 || w.unsent > 0 || !w.connected || w.watcher.Checking?
  }

  /** What is sent and buffered lies where the handler counts it, and a batch that is
      short and not cut reached the end of the log as it was. */
  predicate ReaderOk(w: World)
  {
    && (|| w.cursor == w.resume + |w.buffer|
        || (w.collector == Closed(EndOfStream) && w.buffer == [] && w.resume == w.cursor + 1))
    && IsWindow(w.table.rows, w.resume, w.buffer)
    && match w.collector
       case Looping => true
       case Waiting => true
       case ReadCompleted(completed) => completed ==> w.table.completed
       case Sending(completed, batch, returned) =>
         && returned + |batch| <= CAPACITY
         && IsWindow(w.table.rows, w.cursor, batch)
         && (completed ==> w.table.completed)
         && (completed && ShortRead(w.collector) && !w.cut ==> |w.table.rows| <= w.cursor + |batch|)
       case Closed(reason) => reason.EndOfStream? ==> w.table.completed && (w.cut || |w.table.rows| <= w.cursor)
  }

  /** A cut leaves rows past the cursor, and the collector no way but to sleep or end. */
  predicate CutOk(w: World)
  {
    w.cut ==>
      && |w.table.rows| > w.cursor
      && (w.collector.Waiting? || w.collector.Closed? || (ShortRead(w.collector) && w.collector.batch == []))
  }

  predicate WakeUpOk(w: World)
  {
    && (Unseen(w) ==> WakeUpPending(w.wire) || w.wire.lost || w.cut)
    && (w.wire.lost ==> Unseen(w) || w.collector.Closed?)
  }

  function Ids(got: seq<Received>): set<nat>
  {
    set r | r in got :: r.id
  }

  /** The event is the log's under this id. */
  predicate IsRow(rows: seq<Row>, r: Received)
  {
    r.id < |rows| && rows[r.id].event == r.event
  }

  predicate Ascending(got: seq<Received>)
  {
    forall i, j | 0 <= i < j < |got| :: got[i].id < got[j].id
  }

  /** Events that follow one another from `from` on. */
  predicate Consecutive(got: seq<Received>, from: nat)
  {
    forall i | 0 <= i < |got| :: got[i].id == from + i
  }

  /** Each id from the first asked for to the next was used once, for a row or for an end. */
  predicate ClientOk(w: World)
  {
    && w.resume == w.from + |w.got| + |w.ends|
    && (forall r | r in w.got :: IsRow(w.table.rows, r))
    && Ascending(w.got)
    && Ids(w.got) == (set p: nat | w.from <= p < w.resume && p !in w.ends)
    && (forall e | e in w.ends :: w.from <= e < w.resume)
    && (w.ends == {} ==> Consecutive(w.got, w.from))
    && (w.ends != {} ==> w.table.completed)
  }

  predicate Inv(w: World)
  {
    TableOk(w.table) && ReaderOk(w) && CutOk(w) && WakeUpOk(w) && ClientOk(w)
  }

  lemma InitialInv(w: World)
    requires Initial(w)
    ensures Inv(w)
  {
  }

  lemma WindowGrows(rows: seq<Row>, row: Row, at: nat, es: seq<Event>)
    requires IsWindow(rows, at, es)
    ensures IsWindow(rows + [row], at, es)
  {
    if es != [] {
      assert (rows + [row])[at..at + |es|] == rows[at..at + |es|];
    }
  }

  lemma AppendKeepsInv(w: World, event: Event)
    requires Inv(w) && !w.table.completed
    ensures Inv(w.(table := Append(w.table, event), wire := w.wire.(unsent := w.wire.unsent + 1)))
  {
    var row := Row(w.table.nextId, event);
    WindowGrows(w.table.rows, row, w.resume, w.buffer);
    if w.collector.Sending? {
      WindowGrows(w.table.rows, row, w.cursor, w.collector.batch);
    }
  }

  lemma QueryIsWindow(rows: seq<Row>, offset: nat, limit: nat)
    ensures var es := Query(rows, offset, limit);
      && |es| <= limit && IsWindow(rows, offset, es)
      && (|es| < limit ==> |rows| <= offset + |es|)
  {
    if offset < |rows| {
      assert rows[offset..] == rows[offset..offset + (|rows| - offset)];
    }
  }

  /** The first row of a batch extends what was buffered, and the rest follows it. */
  lemma WindowShifts(rows: seq<Row>, at: nat, es: seq<Event>, batch: seq<Event>)
    requires IsWindow(rows, at, es) && IsWindow(rows, at + |es|, batch) && batch != []
    ensures IsWindow(rows, at, es + [batch[0]]) && IsWindow(rows, at + |es| + 1, batch[1..])
    ensures IsRow(rows, Received(at + |es|, batch[0]))
  {
    var mid := at + |es|;
    assert rows[mid..mid + |batch|][0] == rows[mid];
    assert rows[at..mid + 1] == rows[at..mid] + [rows[mid]];
    assert rows[mid..mid + |batch|][1..] == rows[mid + 1..mid + |batch|];
  }

  lemma SendKeepsInv(w: World)
    requires Inv(w) && Enabled(w, SendRow)
    ensures Inv(Do(w, SendRow))
  {
    hide IsWindow, TableOk, ClientOk;
    WindowShifts(w.table.rows, w.resume, w.buffer, w.collector.batch);
    SameClient(w, Do(w, SendRow));
  }

  lemma SameClient(w: World, w': World)
    requires ClientOk(w) && w'.table.rows == w.table.rows && w'.table.completed == w.table.completed
    requires w'.from == w.from && w'.resume == w.resume && w'.got == w.got && w'.ends == w.ends
    ensures ClientOk(w')
  {
  }

  /** On the wire nothing is lost without something else being on its way, or a death
      on record. */
  lemma WireKeepsInv(w: World, s: Step)
    requires Inv(w) && Enabled(w, s)
    requires s.Notify? || s.Die? || s.Break? || s.Reconnect? || s.Arrive? || s.Dispatch? || s.Check? || s.Hear?
    ensures Inv(Do(w, s))
  {
    hide TableOk, ReaderOk, ClientOk;
    OtherWire(w, Do(w, s).wire);
  }

  lemma OtherWire(w: World, wire: Wire)
    requires ReaderOk(w) && ClientOk(w)
    ensures ReaderOk(w.(wire := wire)) && ClientOk(w.(wire := wire))
  {
  }

  lemma CollectorKeepsInv(w: World, s: Step)
    requires Inv(w) && Enabled(w, s)
    requires s.QueryCompleted? || s.QueryRows? || s.CutShort? || s.EndBatch? || s.WakeUp? || s.Stop? || s.FailQuery?
    ensures Inv(Do(w, s))
  {
    hide TableOk, ClientOk;
    SameClient(w, Do(w, s));
    if s.QueryRows? {
      QueryIsWindow(w.table.rows, w.cursor, CAPACITY);
    }
  }

  lemma ReceiveKeepsInv(w: World)
    requires Inv(w) && Enabled(w, Receive)
    ensures Inv(Do(w, Receive))
  {
    hide IsWindow, TableOk, ClientOk;
    WindowShifts(w.table.rows, w.resume, [], w.buffer);
    ReceiveKeepsClient(w);
  }

  lemma ReceiveKeepsClient(w: World)
    requires ClientOk(w) && Enabled(w, Receive) && IsRow(w.table.rows, Received(w.resume, w.buffer[0]))
    ensures ClientOk(Do(w, Receive))
  {
    hide IsRow;
    IdsSnoc(w.got, Received(w.resume, w.buffer[0]));
    InOrder(w);
  }

  lemma IdsSnoc(got: seq<Received>, r: Received)
    ensures Ids(got + [r]) == Ids(got) + {r.id}
  {
    assert forall x | x in got + [r] :: x in got || x == r;
    assert r in got + [r];
    forall x | x in got
      ensures x in got + [r]
    {
    }
  }

  lemma InOrder(w: World)
    requires ClientOk(w)
    ensures forall i | 0 <= i < |w.got| :: w.got[i].id < w.resume
  {
    forall i | 0 <= i < |w.got|
      ensures w.got[i].id < w.resume
    {
      assert w.got[i] in w.got && w.got[i].id in Ids(w.got);
    }
  }

  lemma ReceiveEndKeepsInv(w: World)
    requires Inv(w) && Enabled(w, ReceiveEnd)
    ensures Inv(Do(w, ReceiveEnd))
  {
    hide TableOk;
    var u := Do(w, ReceiveEnd);
    assert |u.ends| == |w.ends| + 1;
    assert Ids(w.got) == (set p: nat | u.from <= p < u.resume && p !in u.ends);
  }

  lemma ResubscribeKeepsInv(w: World)
    requires Inv(w)
    ensures Inv(Do(w, Resubscribe))
  {
    hide TableOk, ClientOk;
    SameClient(w, Do(w, Resubscribe));
  }

  lemma RollBackKeepsInv(w: World)
    requires Inv(w) && Enabled(w, RollBack)
    ensures Inv(Do(w, RollBack))
  {
    hide ClientOk;
    SameClient(w, Do(w, RollBack));
  }

  lemma StepKeepsInv(w: World, s: Step)
    requires Inv(w) && Enabled(w, s)
    ensures Inv(Do(w, s))
  {
    hide Inv;
    match s
    case SaveEvent(event) => AppendKeepsInv(w, event);
    case Finish(status) => AppendKeepsInv(w, Final(status));
    case RollBack => RollBackKeepsInv(w);
    case SendRow => SendKeepsInv(w);
    case Notify => WireKeepsInv(w, s);
    case Die => WireKeepsInv(w, s);
    case Break => WireKeepsInv(w, s);
    case Reconnect => WireKeepsInv(w, s);
    case Arrive => WireKeepsInv(w, s);
    case Dispatch => WireKeepsInv(w, s);
    case Check => WireKeepsInv(w, s);
    case Hear => WireKeepsInv(w, s);
    case Receive => ReceiveKeepsInv(w);
    case ReceiveEnd => ReceiveEndKeepsInv(w);
    case Resubscribe => ResubscribeKeepsInv(w);
    case _ => CollectorKeepsInv(w, s);
  }

  lemma {:induction false} RunKeepsInv(w: World, steps: seq<Step>)
    requires Inv(w) && Allowed(w, steps)
    ensures Inv(Exec(w, steps))
    decreases steps
  {
    if steps != [] {
      StepKeepsInv(w, steps[0]);
      RunKeepsInv(Do(w, steps[0]), steps[1..]);
    }
  }

  // ---- What the client receives ------------------------------------------------

  /** The events the run's writers saved, and the final status, in order. */
  function Saved(steps: seq<Step>): seq<Event>
  {
    if steps == [] then []
    else
      (match steps[0]
       case SaveEvent(event) => [event]
       case Finish(status) => [Final(status)]
       case _ => []) + Saved(steps[1..])
  }

  lemma StepSaves(w: World, s: Step)
    requires Enabled(w, s)
    ensures Events(Do(w, s).table.rows) == Events(w.table.rows) + Saved([s])
  {
    assert [s][1..] == [];
  }

  /** The log holds what it held before the run, followed by what the run's writers
      saved, each event once and in order. */
  lemma {:induction false} LogIsWhatWasSaved(w: World, steps: seq<Step>)
    requires Allowed(w, steps)
    ensures Events(Exec(w, steps).table.rows) == Events(w.table.rows) + Saved(steps)
    decreases steps
  {
    hide Do, Enabled;
    if steps != [] {
      StepSaves(w, steps[0]);
      LogIsWhatWasSaved(Do(w, steps[0]), steps[1..]);
      assert Saved(steps) == Saved([steps[0]]) + Saved(steps[1..]) by { assert [steps[0]][1..] == []; }
    }
  }

  /** Over all its connections, and whatever breaks, the client receives under number n
      the n-th event of the log, that is of what was there and what writers saved since,
      in order and each once; between the first number it asked for and the next one it
      would ask for, exactly the numbers of end events are missing. */
  lemma DeliveryIsExact(w: World, steps: seq<Step>)
    requires Initial(w) && Allowed(w, steps)
    ensures
      var now, log := Exec(w, steps), Events(w.table.rows) + Saved(steps);
      && (forall r | r in now.got :: r.id < |log| && log[r.id] == r.event)
      && Ascending(now.got)
      && Ids(now.got) == (set p: nat | w.from <= p < now.resume && p !in now.ends)
  {
    hide Allowed, Exec, Initial, Saved;
    InitialInv(w);
    RunKeepsInv(w, steps);
    FromIsFixed(w, steps);
    LogIsWhatWasSaved(w, steps);
    var now, log := Exec(w, steps), Events(w.table.rows) + Saved(steps);
    forall r | r in now.got
      ensures r.id < |log| && log[r.id] == r.event
    {
      assert IsRow(now.table.rows, r);
    }
  }

  /** Some end event came while the log had a row under its id. */
  predicate Misled(w: World)
  {
    exists e :: e in w.ends && e < |w.table.rows|
  }

  /** An end event is received from a connection whose last batch was cut. */
  predicate CutEnd(w: World, steps: seq<Step>)
    requires Allowed(w, steps)
    decreases steps
  {
    steps != [] && ((steps[0].ReceiveEnd? && w.cut) || CutEnd(Do(w, steps[0]), steps[1..]))
  }

  lemma MisledByEnd(w: World)
    requires Inv(w) && Enabled(w, ReceiveEnd)
    ensures Misled(Do(w, ReceiveEnd)) <==> Misled(w) || w.cut
  {
    hide TableOk, IsWindow, WakeUpOk, ClientOk;
    var u := Do(w, ReceiveEnd);
    assert u.table == w.table && u.ends == w.ends + {w.resume};
    assert w.cut <==> w.resume < |w.table.rows|;
    assert w.resume in u.ends;
    if e :| e in w.ends && e < |w.table.rows| { assert e in u.ends; }
  }

  lemma EndsStay(w: World, s: Step)
    requires Enabled(w, s) && !s.ReceiveEnd? && (w.ends != {} ==> w.table.completed)
    ensures Misled(Do(w, s)) <==> Misled(w)
  {
    var u := Do(w, s);
    assert u.ends == w.ends && (w.ends != {} ==> u.table.rows == w.table.rows);
  }

  lemma MisledByStep(w: World, s: Step)
    requires Inv(w) && Enabled(w, s)
    ensures Misled(Do(w, s)) <==> Misled(w) || (s.ReceiveEnd? && w.cut)
  {
    hide Misled, Do, Enabled, ReaderOk, WakeUpOk, CutOk, TableOk;
    if s.ReceiveEnd? { MisledByEnd(w); } else { EndsStay(w, s); }
  }

  /** A client is misled exactly by the ends of cut batches. */
  lemma {:induction false} MisledIffCutEnd(w: World, steps: seq<Step>)
    requires Inv(w) && Allowed(w, steps)
    ensures Misled(Exec(w, steps)) <==> Misled(w) || CutEnd(w, steps)
    decreases steps
  {
    hide Inv, Misled, Do, Enabled;
    if steps != [] {
      MisledByStep(w, steps[0]);
      StepKeepsInv(w, steps[0]);
      MisledIffCutEnd(Do(w, steps[0]), steps[1..]);
    }
  }

  /** Every row from the first asked for has been received. */
  predicate Whole(w: World)
  {
    forall p: nat | w.from <= p < |w.table.rows| :: p in Ids(w.got)
  }

  lemma WholeIffNotMisled(w: World)
    requires Inv(w) && w.ends != {}
    ensures Whole(w) <==> !Misled(w)
  {
    if Misled(w) {
      var e :| e in w.ends && e < |w.table.rows|;
      assert e !in Ids(w.got);
    } else {
      var e :| e in w.ends;
      assert |w.table.rows| <= e < w.resume;
    }
  }

  function Payloads(got: seq<Received>): (es: seq<Event>)
    ensures |es| == |got| && forall i | 0 <= i < |es| :: es[i] == got[i].event
  {
    seq(|got|, i requires 0 <= i < |got| => got[i].event)
  }

  function Rest(log: seq<Event>, from: nat): seq<Event>
  {
    if from <= |log| then log[from..] else []
  }

  /** Ascending numbers from `from` on are at least their places. */
  lemma {:induction false} NumbersGrow(w: World, i: nat)
    requires ClientOk(w) && i < |w.got|
    ensures w.from + i <= w.got[i].id && w.got[i].id + |w.got| <= |w.table.rows| + i
    decreases |w.got| - i
  {
    assert w.got[i] in w.got && IsRow(w.table.rows, w.got[i]);
    if i + 1 < |w.got| { NumbersGrow(w, i + 1); }
    NumbersStart(w, i);
  }

  lemma {:induction false} NumbersStart(w: World, i: nat)
    requires ClientOk(w) && i < |w.got|
    ensures w.from + i <= w.got[i].id
  {
    if i == 0 {
      assert w.got[0] in w.got && w.got[0].id in Ids(w.got);
    } else {
      NumbersStart(w, i - 1);
    }
  }

  lemma GotFits(w: World)
    requires ClientOk(w)
    ensures |w.got| > 0 ==> w.from + |w.got| <= |w.table.rows|
  {
    if |w.got| > 0 { NumbersGrow(w, 0); }
  }

  /** Every row has been received exactly when what was received, one after another, is
      the log from the first number asked for. */
  lemma WholeIsAll(w: World)
    requires ClientOk(w)
    ensures Whole(w) <==> Payloads(w.got) == Rest(Events(w.table.rows), w.from)
  {
    var n := |w.table.rows|;
    forall i | 0 <= i < |w.got|
      ensures w.from + i <= w.got[i].id && w.got[i].id + |w.got| <= n + i
      ensures IsRow(w.table.rows, w.got[i])
    {
      NumbersGrow(w, i);
      assert w.got[i] in w.got;
    }
    if w.from >= n {
      GotFits(w);
    } else if Whole(w) {
      AllPlaces(w);
      assert Payloads(w.got) == Events(w.table.rows)[w.from..];
    }
    if Payloads(w.got) == Rest(Events(w.table.rows), w.from) {
      forall p: nat | w.from <= p < n
        ensures p in Ids(w.got)
      {
        var r := w.got[p - w.from];
        assert r in w.got && r.id == p;
      }
    }
  }

  /** If no number is missing, each is in its place. */
  lemma AllPlaces(w: World)
    requires ClientOk(w) && Whole(w) && w.from < |w.table.rows|
    ensures |w.got| == |w.table.rows| - w.from
    ensures forall i | 0 <= i < |w.got| :: w.got[i].id == w.from + i
  {
    var n := |w.table.rows|;
    InPlace(w, n - 1 - w.from);
    GotFits(w);
    forall i | 0 <= i < |w.got|
      ensures w.got[i].id == w.from + i
    {
      InPlace(w, i);
    }
  }

  lemma {:induction false} InPlace(w: World, i: nat)
    requires ClientOk(w) && Whole(w) && w.from + i < |w.table.rows|
    ensures i < |w.got| && w.got[i].id == w.from + i
  {
    if i > 0 { InPlace(w, i - 1); }
    assert w.from + i in Ids(w.got);
    var r :| r in w.got && r.id == w.from + i;
    var k :| 0 <= k < |w.got| && w.got[k] == r;
    if k < i { InPlace(w, k); }
    NumbersStart(w, i);
  }

  /** After an end event the build is completed, the last event is the status event of
      Finish, and the log stays as it is whatever happens; what the client received is
      what was saved, from the first number asked for, exactly when no end came from a
      cut batch. */
  lemma EndIsTheEndIff(w: World, steps: seq<Step>, more: seq<Step>)
    requires Initial(w) && Allowed(w, steps) && Exec(w, steps).ends != {} && Allowed(Exec(w, steps), more)
    ensures
      var now, later := Exec(w, steps), Exec(Exec(w, steps), more);
      && now.table.completed && now.table.rows != [] && now.table.rows[|now.table.rows| - 1].event.Final?
      && later.table.rows == now.table.rows
      && (Payloads(now.got) == Rest(Events(w.table.rows) + Saved(steps), w.from) <==> !CutEnd(w, steps))
  {
    hide Allowed, Exec, CutEnd, Whole, Misled, Saved;
    LogIsWhatWasSaved(w, steps);
    FromIsFixed(w, steps);
    WholeIsAll(Exec(w, steps)) by {
      InitialInv(w);
      RunKeepsInv(w, steps);
    }
    InitialInv(w);
    RunKeepsInv(w, steps);
    MisledIffCutEnd(w, steps);
    assert !Misled(w) by { NoEndNoLie(w); }
    WholeIffNotMisled(Exec(w, steps));
    CompletedIsForever(Exec(w, steps), more);
  }

  lemma NoEndNoLie(w: World)
    requires w.ends == {}
    ensures !Misled(w)
  {
  }

  /** An event is received after an end event. */
  predicate GoesOn(ended: bool, steps: seq<Step>)
    decreases |steps|
  {
    steps != [] && ((ended && steps[0].Receive?) || GoesOn(ended || steps[0].ReceiveEnd?, steps[1..]))
  }

  lemma ConsecutiveByStep(w: World, s: Step)
    requires Inv(w) && Enabled(w, s)
    ensures var u := Do(w, s);
      && (Consecutive(u.got, u.from) <==> Consecutive(w.got, w.from) && !(s.Receive? && w.ends != {}))
      && (u.ends != {} <==> w.ends != {} || s.ReceiveEnd?)
      && (s.Receive? && w.ends != {} ==> Misled(u))
  {
    var u := Do(w, s);
    if s.Receive? {
      assert u.got[|w.got|].id == w.resume;
      assert forall i | 0 <= i < |w.got| :: u.got[i] == w.got[i];
      if w.ends != {} {
        var e :| e in w.ends;
        assert e in u.ends && e < |u.table.rows|;
        assert |w.ends| > 0;
      }
    }
  }

  lemma {:induction false} ConsecutiveIff(w: World, steps: seq<Step>)
    requires Inv(w) && Allowed(w, steps)
    ensures var now := Exec(w, steps);
      && (Consecutive(now.got, now.from) <==> Consecutive(w.got, w.from) && !GoesOn(w.ends != {}, steps))
      && (GoesOn(w.ends != {}, steps) ==> Misled(now))
    decreases steps
  {
    hide Inv, Misled, Do, Enabled, Consecutive;
    if steps != [] {
      var u := Do(w, steps[0]);
      ConsecutiveByStep(w, steps[0]);
      StepKeepsInv(w, steps[0]);
      ConsecutiveIff(u, steps[1..]);
      MisledIffCutEnd(u, steps[1..]);
    }
  }

  /** What was received has no gap exactly when nothing was received after an end
      event, and a gap takes an end from a cut batch. */
  lemma NoGapIff(w: World, steps: seq<Step>)
    requires Initial(w) && Allowed(w, steps)
    ensures Consecutive(Exec(w, steps).got, w.from) <==> !GoesOn(false, steps)
    ensures GoesOn(false, steps) ==> CutEnd(w, steps)
  {
    hide Allowed, Exec, CutEnd, GoesOn, Misled;
    InitialInv(w);
    FromIsFixed(w, steps);
    ConsecutiveIff(w, steps);
    MisledIffCutEnd(w, steps);
    NoEndNoLie(w);
  }

  /** A poll whose batch is cut before its first row. */
  lemma CutPoll(w: World) returns (steps: seq<Step>)
    requires w.collector.Looping? && |w.table.rows| > w.cursor
    ensures Allowed(w, steps) && Die !in steps
    ensures Exec(w, steps) == w.(collector := if w.table.completed then Closed(EndOfStream) else Waiting, cut := true)
  {
    hide Allowed, Exec;
    QueryIsWindow(w.table.rows, w.cursor, CAPACITY);
    var w1 := Do(w, QueryCompleted);
    var w2 := Do(w1, QueryRows);
    var w3 := Do(w2, CutShort);
    steps := Single(w3, EndBatch);
    steps := Cons(w2, CutShort, steps);
    steps := Cons(w1, QueryRows, steps);
    steps := Cons(w, QueryCompleted, steps);
  }

  /** It happens with every completed build: the end event comes and nothing before it. */
  lemma EndWithoutLog(w: World) returns (steps: seq<Step>)
    requires Initial(w) && w.table.completed && w.from < |w.table.rows|
    ensures Allowed(w, steps)
    ensures Exec(w, steps) ==
      w.(collector := Closed(EndOfStream), cut := true, ends := {w.from}, resume := w.from + 1)
  {
    hide Allowed, Exec;
    steps := CutPoll(w);
    var end := Single(Exec(w, steps), ReceiveEnd);
    steps := Chain(w, steps, end);
  }

  /** And a client that then reconnects gets the next row without the one before. */
  lemma ReconnectSkips(w: World) returns (steps: seq<Step>)
    requires Initial(w) && w.table.completed && w.from + 1 < |w.table.rows|
    ensures Allowed(w, steps)
    ensures Exec(w, steps).got == [Received(w.from + 1, w.table.rows[w.from + 1].event)]
  {
    hide Allowed, Exec;
    steps := EndWithoutLog(w);
    var ended := Exec(w, steps);
    var again := Single(ended, Resubscribe);
    steps := Chain(w, steps, again);
    var row := OneRow(Do(ended, Resubscribe));
    steps := Chain(w, steps, row);
  }

  /** A poll up to the receipt of its first row. */
  lemma OneRow(w: World) returns (steps: seq<Step>)
    requires w.collector.Looping? && w.buffer == [] && |w.table.rows| > w.cursor == w.resume
    ensures Allowed(w, steps)
    ensures Exec(w, steps).got == w.got + [Received(w.resume, w.table.rows[w.resume].event)]
  {
    hide Allowed, Exec;
    QueryIsWindow(w.table.rows, w.cursor, CAPACITY);
    var w1 := Do(w, QueryCompleted);
    var w2 := Do(w1, QueryRows);
    var w3 := Do(w2, SendRow);
    steps := Single(w3, Receive);
    steps := Cons(w2, SendRow, steps);
    steps := Cons(w1, QueryRows, steps);
    steps := Cons(w, QueryCompleted, steps);
  }

  /** What was sent to the client, on its way or received. */
  function Sent(w: World): seq<Event>
  {
    Payloads(w.got) + w.buffer
  }

  /** Once a connection is closed by the client or by a failed query, only what it had sent
      still arrives, and no end event, until there is a new one. */
  lemma {:induction false} ClosedSendsNoMore(w: World, steps: seq<Step>)
    requires w.collector.Closed? && !w.collector.reason.EndOfStream?
    requires Allowed(w, steps) && Resubscribe !in steps
    ensures Sent(Exec(w, steps)) == Sent(w) && Exec(w, steps).ends == w.ends && Exec(w, steps).collector == w.collector
    decreases steps
  {
    hide Do, Enabled;
    if steps != [] {
      ClosedStays(w, steps[0]);
      ClosedSendsNoMore(Do(w, steps[0]), steps[1..]);
    }
  }

  lemma ClosedStays(w: World, s: Step)
    requires w.collector.Closed? && !w.collector.reason.EndOfStream? && Enabled(w, s) && s != Resubscribe
    ensures var u := Do(w, s);
      u.collector == w.collector && Sent(u) == Sent(w) && u.ends == w.ends
  {
    if s.Receive? { assert Payloads(Do(w, s).got) == Payloads(w.got) + [w.buffer[0]]; }
  }

  lemma StopSendsNoMore(w: World, s: Step, steps: seq<Step>)
    requires Enabled(w, s) && (s.Stop? || s.FailQuery?) && Allowed(Do(w, s), steps) && Resubscribe !in steps
    ensures var now := Exec(Do(w, s), steps);
      && Sent(now) == Sent(w) && now.ends == w.ends
      && now.collector == Closed(if s.Stop? then Stopped else QueryFailed)
  {
    ClosedSendsNoMore(Do(w, s), steps);
  }

  /** Event ids: every committed event takes one, and so does every transaction that rolls
      back, which is why the ids have gaps and the numbers sent to clients have none. */
  lemma {:induction false} IdsAreUsed(w: World, steps: seq<Step>)
    requires Allowed(w, steps)
    ensures Exec(w, steps).table.nextId == w.table.nextId + |Saved(steps)| + RollBacks(steps)
    decreases steps
  {
    if steps != [] { IdsAreUsed(Do(w, steps[0]), steps[1..]); }
  }

  function RollBacks(steps: seq<Step>): nat
  {
    if steps == [] then 0 else (if steps[0].RollBack? then 1 else 0) + RollBacks(steps[1..])
  }

  // ---- Wake-ups ------------------------------------------------------------------

  /** Of a collector that sleeps with nothing on its way: it has missed a row, or the
      end of the build, exactly when a writer died between commit and NOTIFY with
      nothing come through since, or its own last batch was cut. */
  lemma NoLostWakeUp(w: World, steps: seq<Step>)
    requires Initial(w) && Allowed(w, steps)
    ensures
      var now := Exec(w, steps);
      && (now.collector.Waiting? && !WakeUpPending(now.wire) ==>
            (now.table.completed || |now.table.rows| > now.cursor <==> now.wire.lost || now.cut))
      && (now.wire.lost ==> Die in steps)
      && (now.cut ==> CutShort in steps)
  {
    InitialInv(w);
    RunKeepsInv(w, steps);
    MissedByDeathOrCut(w, steps);
  }

  lemma {:induction false} MissedByDeathOrCut(w: World, steps: seq<Step>)
    requires Allowed(w, steps)
    ensures Exec(w, steps).wire.lost ==> w.wire.lost || Die in steps
    ensures Exec(w, steps).cut ==> w.cut || CutShort in steps
    decreases steps
  {
    if steps != [] { MissedByDeathOrCut(Do(w, steps[0]), steps[1..]); }
  }

  /** Messages the run puts on the listener's way, less those it takes off at its end. */
  function Balance(steps: seq<Step>): int
  {
    if steps == [] then 0
    else
      (if steps[0].Notify? || steps[0].Reconnect? then 1 else if steps[0].Dispatch? then -1 else 0)
      + Balance(steps[1..])
  }

  /** No notification is heard twice: what the listener still has to hear is at most what
      was on the way, was notified or follows a reconnect, and has not been dispatched. */
  lemma {:induction false} NothingIsHeardTwice(w: World, steps: seq<Step>)
    requires Allowed(w, steps)
    ensures var now := Exec(w, steps);
      now.wire.queued + |now.wire.inbox| <= w.wire.queued + |w.wire.inbox| + Balance(steps)
    decreases steps
  {
    if steps != [] { NothingIsHeardTwice(Do(w, steps[0]), steps[1..]); }
  }

  /** While the listener's connection is down nothing reaches it, however much is notified. */
  lemma BrokenHearsNothing(w: World, steps: seq<Step>)
    requires Enabled(w, Break) && Allowed(Do(w, Break), steps) && Reconnect !in steps
    ensures var now := Exec(Do(w, Break), steps);
      !now.wire.connected && now.wire.queued == 0 && |now.wire.inbox| <= |w.wire.inbox|
  {
    DownStays(Do(w, Break), steps);
  }

  lemma {:induction false} DownStays(w: World, steps: seq<Step>)
    requires !w.wire.connected && w.wire.queued == 0 && Allowed(w, steps) && Reconnect !in steps
    ensures var now := Exec(w, steps);
      !now.wire.connected && now.wire.queued == 0 && |now.wire.inbox| <= |w.wire.inbox|
    decreases steps
  {
    if steps != [] { DownStays(Do(w, steps[0]), steps[1..]); }
  }

  /** Any commit whose writer survives makes up for those who died. */
  lemma SurvivorRestores(w: World)
    requires Enabled(w, Notify)
    ensures WakeUpPending(Do(w, Notify).wire) && !Do(w, Notify).wire.lost
  {
  }

  /** How many steps the nearest pending wake-up is away from the token. */
  function Distance(w: Wire): nat
  {
    if w.token then 0
    else if w.watcher.Checking? then 1
    else if w.sink.Some? then 2
    else if w.inbox != [] then 3
    else if !w.connected || w.queued > 0 then 4 else 5
  }

  /** Steps from outside that make the collector look again, or end it. */
  predicate Disturbs(s: Step)
  {
    s.Break? || s.Stop? || s.Resubscribe?
  }

  /** And what is pending does arrive: from commit to token it takes at most five
      steps of the wire, whatever is dropped on it. */
  lemma {:induction false} PendingArrives(w: World) returns (steps: seq<Step>)
    requires WakeUpPending(w.wire)
    ensures Allowed(w, steps) && Exec(w, steps).wire.token && |steps| <= Distance(w.wire) <= 5
    ensures Exec(w, steps).collector == w.collector && Exec(w, steps).table == w.table
    ensures forall s | s in steps :: !Disturbs(s) && s != Die
    decreases Distance(w.wire)
  {
    hide Allowed, Exec;
    if w.wire.token {
      steps := Nothing(w);
    } else {
      var s :=
        if w.wire.watcher.Checking? then Check
        else if w.wire.sink.Some? then Hear
        else if w.wire.inbox != [] then Dispatch
        else if !w.wire.connected then Reconnect
        else if w.wire.queued > 0 then Arrive else Notify;
      var rest := PendingArrives(Do(w, s));
      steps := Cons(w, s, rest);
    }
  }

  /** A build that is completed, with a sleeping collector and nothing on its way. */
  predicate Silent(w: World)
  {
    w.collector.Waiting? && w.table.completed && !WakeUpPending(w.wire)
  }

  lemma {:induction false} SilentForever(w: World, steps: seq<Step>)
    requires Silent(w) && Allowed(w, steps) && forall s | s in steps :: !Disturbs(s)
    ensures Silent(Exec(w, steps))
    decreases steps
  {
    if steps != [] {
      assert steps[0] in steps;
      SilentForever(Do(w, steps[0]), steps[1..]);
    }
  }

  /** As long as the build goes on, its next event wakes the collector. */
  lemma NextEventWakes(w: World) returns (steps: seq<Step>)
    requires w.collector.Waiting? && !w.table.completed
    ensures Allowed(w, steps) && Exec(w, steps).collector.Looping? && forall s | s in steps :: !Disturbs(s) && s != Die
  {
    hide Allowed, Exec;
    var saved := Do(w, SaveEvent(Log("")));
    var arrival := PendingArrives(saved);
    var woken := Exec(saved, arrival);
    var wake := Single(woken, WakeUp);
    steps := Chain(saved, arrival, wake);
    steps := Cons(w, SaveEvent(Log("")), steps);
  }

  /** Who sleeps with nothing on its way sleeps on, undisturbed, exactly when the build
      is completed: when it was Finish that did not notify, or whose row was cut. */
  lemma LossIsPermanentIff(w: World)
    requires w.collector.Waiting? && !WakeUpPending(w.wire)
    ensures w.table.completed <==>
      forall steps | Allowed(w, steps) && (forall s | s in steps :: !Disturbs(s)) :: Exec(w, steps).collector.Waiting?
  {
    if w.table.completed {
      forall steps | Allowed(w, steps) && (forall s | s in steps :: !Disturbs(s))
        ensures Exec(w, steps).collector.Waiting?
      {
        SilentForever(w, steps);
      }
    } else {
      var steps := NextEventWakes(w);
    }
  }

  /** And it happens, with any last event: the collector sleeps past a committed row
      and nothing is on its way. */
  lemma DeadWriterLosesWakeUp(event: Event) returns (w: World, steps: seq<Step>)
    ensures Initial(w) && Allowed(w, steps)
    ensures
      var now := Exec(w, steps);
      Unseen(now) && now.collector.Waiting? && !WakeUpPending(now.wire) && (now.table.completed <==> event.Final?)
  {
    hide Allowed, Exec;
    w, steps := FallsAsleep();
    var asleep := Exec(w, steps);
    var commit := if event.Final? then Finish(event.status) else SaveEvent(event);
    var save := Single(asleep, commit);
    steps := Chain(w, steps, save);
    var die := Single(Do(asleep, commit), Die);
    steps := Chain(w, steps, die);
  }

  /** Without any death, a collector whose batch is cut sleeps past a row with nothing on
      its way. */
  lemma CutBatchLosesWakeUp(row: Row) returns (w: World, steps: seq<Step>)
    requires row.event.Log?
    ensures Initial(w) && Allowed(w, steps) && Die !in steps
    ensures
      var now := Exec(w, steps);
      now.collector.Waiting? && now.table.rows == [row] && now.cursor == 0 && !WakeUpPending(now.wire)
  {
    var wire := Wire(0, true, 0, [], None, Checking, false, false);
    w := World(Table([row], row.id + 1, false), wire, Looping, false, 0, [], 0, 0, [], {});
    hide Allowed, Exec;
    var asleep := w.(collector := Waiting, cut := true);
    steps := CutPoll(w);
    var wake := Single(asleep, Check);
    steps := Chain(w, steps, wake);
    wake := Single(Do(asleep, Check), WakeUp);
    steps := Chain(w, steps, wake);
    var again := CutPoll(Exec(w, steps));
    steps := Chain(w, steps, again);
  }

  /** A collector that has seen an empty log and sleeps, with nothing on its way. */
  lemma FallsAsleep() returns (w: World, steps: seq<Step>)
    ensures Initial(w) && Allowed(w, steps)
    ensures
      var now := Exec(w, steps);
      now.collector.Waiting? && now.cursor == 0 && now.table == Table([], 0, false)
      && now.wire == Wire(0, true, 0, [], None, Listening, false, false)
  {
    var wire := Wire(0, true, 0, [], None, Checking, false, false);
    w := World(Table([], 0, false), wire, Looping, false, 0, [], 0, 0, [], {});
    hide Allowed, Exec;
    var asleep := w.(collector := Waiting);
    var awake := w.(wire := w.wire.(watcher := Listening));
    steps := Idle(w);
    var wake := Single(asleep, Check);
    steps := Chain(w, steps, wake);
    wake := Single(Do(asleep, Check), WakeUp);
    steps := Chain(w, steps, wake);
    var again := Idle(awake);
    steps := Chain(w, steps, again);
  }

  /** An idle poll of a running build ends in the wait. */
  lemma Idle(w: World) returns (steps: seq<Step>)
    requires w.collector.Looping? && !w.table.completed && |w.table.rows| <= w.cursor
    ensures Allowed(w, steps) && Exec(w, steps) == w.(collector := Waiting)
  {
    hide Allowed, Exec;
    var w1 := Do(w, QueryCompleted);
    var w2 := Do(w1, QueryRows);
    steps := Single(w2, EndBatch);
    steps := Cons(w1, QueryRows, steps);
    steps := Cons(w, QueryCompleted, steps);
  }

  lemma {:induction false} Chain(w: World, first: seq<Step>, second: seq<Step>) returns (steps: seq<Step>)
    requires Allowed(w, first) && Allowed(Exec(w, first), second)
    ensures steps == first + second && Allowed(w, steps) && Exec(w, steps) == Exec(Exec(w, first), second)
    decreases first
  {
    if first == [] {
      steps := second;
    } else {
      var rest := Chain(Do(w, first[0]), first[1..], second);
      steps := [first[0]] + rest;
      assert steps[1..] == rest && steps == first + second;
    }
  }

  lemma Nothing(w: World) returns (steps: seq<Step>)
    ensures steps == [] && Allowed(w, steps) && Exec(w, steps) == w
  {
    steps := [];
  }

  lemma Single(w: World, s: Step) returns (steps: seq<Step>)
    requires Enabled(w, s)
    ensures steps == [s] && Allowed(w, steps) && Exec(w, steps) == Do(w, s)
  {
    steps := [s];
  }

  lemma Cons(w: World, s: Step, rest: seq<Step>) returns (steps: seq<Step>)
    requires Enabled(w, s) && Allowed(Do(w, s), rest)
    ensures steps == [s] + rest && Allowed(w, steps) && Exec(w, steps) == Exec(Do(w, s), rest)
  {
    steps := [s] + rest;
    assert steps[1..] == rest;
  }

  lemma {:induction false} FromIsFixed(w: World, steps: seq<Step>)
    requires Allowed(w, steps)
    ensures Exec(w, steps).from == w.from
    decreases steps
  {
    if steps != [] {
      FromIsFixed(Do(w, steps[0]), steps[1..]);
    }
  }

  lemma {:induction false} CompletedIsForever(w: World, steps: seq<Step>)
    requires w.table.completed && Allowed(w, steps)
    ensures Exec(w, steps).table.rows == w.table.rows && Exec(w, steps).table.completed
    decreases steps
  {
    if steps != [] {
      CompletedIsForever(Do(w, steps[0]), steps[1..]);
    }
  }
}
