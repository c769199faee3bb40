/**
 * The key switch at start-up: rows are decrypted, re-encrypted or encrypted one by
 * one, each from the value an earlier query returned. Encryption is authenticated:
 * decrypting with another key fails.
 */
module KeySwitch {
  import opened Options

  type Key = string

  /** A column and its nonce: no value, a value without a nonce, or a value with one. */
  datatype Cell = Null | Plain(text: string) | Sealed(key: Key, sealed: string)

  function Text(c: Cell): Option<string>
  {
    match c
    case Null => None
    case Plain(x) => Some(x)
    case Sealed(_, x) => Some(x)
  }

  datatype Keys = Keys(oldKey: Option<Key>, newKey: Option<Key>)

  /** What a finished switch promises of every cell. */
  predicate Target(keys: Keys, c: Cell)
  {
    match keys
    case Keys(Some(_), None) => !c.Sealed?
    case Keys(Some(_), Some(k)) => c.Null? || (c.Sealed? && c.key == k)
    case Keys(None, Some(_)) => !c.Plain?
    case Keys(None, None) => true
  }

  /** The first pass handles sealed cells, the second the others. */
  datatype Pass = Switch | Seal

  datatype Write = Put(cell: Cell) | Skip | Fail

  /** What a pass does with the cell it read. */
  function Handle(keys: Keys, pass: Pass, c: Cell): Write
  {
    match pass
    case Seal => if c.Plain? && keys.newKey.Some? then Put(Sealed(keys.newKey.value, c.text)) else Skip
    case Switch =>
      if !c.Sealed? || keys.oldKey.None? then Skip
      else if c.key == keys.oldKey.value then
        Put(if keys.newKey.None? then Plain(c.sealed) else Sealed(keys.newKey.value, c.sealed))
      else if keys.newKey == Some(c.key) then Skip
      else Fail
  }

  /** Whatever is written has the text that was read. */
  lemma HandleKeepsText(keys: Keys, pass: Pass, c: Cell)
    ensures Handle(keys, pass, c).Put? ==> Text(Handle(keys, pass, c).cell) == Text(c)
  {
  }

  // ---- One run on its own ------------------------------------------------------

  function After(keys: Keys, pass: Pass, c: Cell): Cell
  {
    var h := Handle(keys, pass, c);
    if h.Put? then h.cell else c
  }

  /** A cell after the passes that came to it. */
  function Switched(keys: Keys, c: Cell, first: bool, second: bool): Cell
  {
    var d := if first then After(keys, Switch, c) else c;
    if second then After(keys, Seal, d) else d
  }

  /** The passes keep the text and do no more a second time. A cell ends in the promised
      form exactly when it was before, or the pass that concerns it came to it and it is
      not sealed with neither key. */
  lemma SwitchedIsTarget(keys: Keys, c: Cell, first: bool, second: bool)
    ensures var d := Switched(keys, c, first, second);
      && Text(d) == Text(c)
      && Switched(keys, d, first, second) == d
      && (Target(keys, d) <==>
            Target(keys, c) || ((if c.Sealed? then first else second) && !Handle(keys, Switch, c).Fail?))
  {
  }

  /** How many rows of a table the iteration returns before it ends or breaks. */
  function Reached(rows: array<Cell>, read: nat): (n: nat)
    ensures n <= rows.Length
  {
    if read < rows.Length then read else rows.Length
  }

  /** One table in a pass: the rows its query returned, one by one, up to a row that
      cannot be decrypted. An iteration that breaks after `read` rows is not told from
      one that came to its end; `stop` is where a crash hits. */
  method RunTable(rows: array<Cell>, keys: Keys, pass: Pass, read: nat, stop: nat) returns (done: nat, ok: bool)
    modifies rows
    ensures done <= Reached(rows, read) && (ok <==> done == Reached(rows, read))
    ensures forall i | 0 <= i < done ::
      rows[i] == After(keys, pass, old(rows[i])) && !Handle(keys, pass, old(rows[i])).Fail?
    ensures forall i | done <= i < rows.Length :: rows[i] == old(rows[i])
    ensures !ok ==> done == stop || Handle(keys, pass, old(rows[done])).Fail?
  {
    done := 0;
    while done < rows.Length && done < read
      invariant done <= Reached(rows, read)
      invariant forall i | 0 <= i < done ::
        rows[i] == After(keys, pass, old(rows[i])) && !Handle(keys, pass, old(rows[i])).Fail?
      invariant forall i | done <= i < rows.Length :: rows[i] == old(rows[i])
    {
      if done == stop { return done, false; }
      var h := Handle(keys, pass, rows[done]);
      if h.Fail? { return done, false; }
      if h.Put? { rows[done] := h.cell; }
      done := done + 1;
    }
    ok := true;
  }

  predicate Distinct(tables: seq<array<Cell>>)
  {
    forall s, t | 0 <= s < t < |tables| :: tables[s] != tables[t]
  }

  /** One pass over the tables, in any order. */
  method RunPass(tables: seq<array<Cell>>, keys: Keys, pass: Pass, returned: seq<nat>, stops: seq<nat>)
    returns (ok: bool)
    requires Distinct(tables) && |returned| == |stops| == |tables|
    modifies tables
    ensures forall t, i | 0 <= t < |tables| && 0 <= i < tables[t].Length ::
      tables[t][i] == old(tables[t][i]) || tables[t][i] == After(keys, pass, old(tables[t][i]))
    ensures ok ==> forall t, i | 0 <= t < |tables| && 0 <= i < tables[t].Length ::
      if i < returned[t] then
        tables[t][i] == After(keys, pass, old(tables[t][i])) && !Handle(keys, pass, old(tables[t][i])).Fail?
      else tables[t][i] == old(tables[t][i])
    ensures !ok ==>
      exists t | 0 <= t < |tables| ::
        || stops[t] < Reached(tables[t], returned[t])
        || (exists i | 0 <= i < Reached(tables[t], returned[t]) :: Handle(keys, pass, old(tables[t][i])).Fail?)
  {
    ok := true;
    var n := 0;
    while n < |tables|
      invariant n <= |tables|
      invariant forall t, i | 0 <= t < n && 0 <= i < tables[t].Length ::
        if i < returned[t] then
          tables[t][i] == After(keys, pass, old(tables[t][i])) && !Handle(keys, pass, old(tables[t][i])).Fail?
        else tables[t][i] == old(tables[t][i])
      invariant forall t, i | n <= t < |tables| && 0 <= i < tables[t].Length :: tables[t][i] == old(tables[t][i])
    {
      var done;
      done, ok := RunTable(tables[n], keys, pass, returned[n], stops[n]);
      if !ok { return; }
      n := n + 1;
    }
  }

  /** The switch of Open: with an old key, decrypt or rotate; with a new key, then
      encrypt what is plain. When it reports success, a row is in the promised form
      exactly when it was before or the pass that concerns it came to it. */
  method Open(tables: seq<array<Cell>>, keys: Keys, returned: seq<nat>, sealing: seq<nat>,
              stops: seq<nat>, sealingStops: seq<nat>) returns (ok: bool)
    requires Distinct(tables) && |returned| == |sealing| == |stops| == |sealingStops| == |tables|
    modifies tables
    ensures forall t, i | 0 <= t < |tables| && 0 <= i < tables[t].Length ::
      Text(tables[t][i]) == old(Text(tables[t][i]))
    ensures ok ==> forall t, i | 0 <= t < |tables| && 0 <= i < tables[t].Length ::
      tables[t][i] == Switched(keys, old(tables[t][i]), i < returned[t], i < sealing[t])
    ensures ok ==> forall t, i | 0 <= t < |tables| && 0 <= i < tables[t].Length ::
      Target(keys, tables[t][i]) <==>
        old(Target(keys, tables[t][i])) || i < (if old(tables[t][i]).Sealed? then returned[t] else sealing[t])
    ensures (forall t | 0 <= t < |tables| :: stops[t] >= tables[t].Length && sealingStops[t] >= tables[t].Length) ==>
      (ok <==> forall t, i | 0 <= t < |tables| && 0 <= i < Reached(tables[t], returned[t]) ::
                 !Handle(keys, Switch, old(tables[t][i])).Fail?)
  {
    ok := true;
    if keys.oldKey.Some? {
      ok := RunPass(tables, keys, Switch, returned, stops);
      if !ok { return; }
    }
    if keys.newKey.Some? {
      ok := RunPass(tables, keys, Seal, sealing, sealingStops);
    }
  }
}
