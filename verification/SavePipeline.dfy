/**
 * Saving the configuration of one pipeline: versions are compared and set, and the
 * jobs, resources and resource types are deactivated and written back one by one in
 * the same transaction.
 */
module SavePipeline {
  import opened Options

  /** A named part of a configuration and its payload. */
  datatype Item = Item(name: string, payload: string)

  datatype Config = Config(groups: string, resources: seq<Item>, types: seq<Item>, jobs: seq<Item>)

  /** A row of the jobs, resources or resource_types table. */
  datatype Entry = Entry(payload: string, active: bool)

  datatype Row = Row(version: nat, paused: bool, groups: string,
                     resources: map<string, Entry>, types: map<string, Entry>, jobs: map<string, Entry>)

  datatype Outcome = Saved(created: bool) | ComparisonFailed | Broken

  // ---- What a save means -------------------------------------------------------------------

  /** The payload a list gives a name: the last one. */
  function AsMap(items: seq<Item>): map<string, string>
  {
    if items == [] then map[] else AsMap(items[..|items| - 1])[items[|items| - 1].name := items[|items| - 1].payload]
  }

  /** The active part of a table. */
  function Active(m: map<string, Entry>): map<string, string>
  {
    map name | name in m && m[name].active :: m[name].payload
  }

  /** The listed names active with their payloads, all others kept but inactive. */
  function Replaced(m: map<string, Entry>, items: seq<Item>): map<string, Entry>
  {
    map name | name in m.Keys + AsMap(items).Keys ::
      if name in AsMap(items) then Entry(AsMap(items)[name], true) else m[name].(active := false)
  }

  lemma ReplacedIsActive(m: map<string, Entry>, items: seq<Item>)
    ensures Active(Replaced(m, items)) == AsMap(items)
    ensures Replaced(m, items).Keys == m.Keys + AsMap(items).Keys
    ensures forall name | name in m && name !in AsMap(items) ::
      Replaced(m, items)[name] == Entry(m[name].payload, false)
  {
  }

  function Fresh(config: Config, version: nat, paused: bool): Row
  {
    Row(version, paused, config.groups,
        Replaced(map[], config.resources), Replaced(map[], config.types), Replaced(map[], config.jobs))
  }

  function Updated(row: Row, config: Config, version: nat, paused: Option<bool>): Row
  {
    Row(version, if paused.Some? then paused.value else row.paused, config.groups,
        Replaced(row.resources, config.resources), Replaced(row.types, config.types), Replaced(row.jobs, config.jobs))
  }

  // ---- The transaction ---------------------------------------------------------------------

  /** UPDATE ... SET active = false. */
  function Deactivated(m: map<string, Entry>): map<string, Entry>
  {
    map name | name in m :: m[name].(active := false)
  }

  class Team {
    var row: Option<Row>      // the pipeline, if there is one
    var nextVersion: nat      // the configuration version sequence, shared with other pipelines

    constructor (next: nat)
      ensures row == None && nextVersion == next
    {
      row, nextVersion := None, next;
    }

    /** Update the row of that name, or insert one. `left` counts the statements that
        still go through before the connection breaks, if it does. */
    static method Save(m: map<string, Entry>, item: Item, left: Option<nat>)
      returns (n: map<string, Entry>, ok: bool, rest: Option<nat>)
      ensures ok <==> left != Some(0)
      ensures n == if ok then m[item.name := Entry(item.payload, true)] else m
      ensures rest.Some? <==> left.Some?
    {
      if left == Some(0) { return m, false, left; }
      rest := if left.None? then None else Some(left.value - 1);
      if item.name in m {
        n := m[item.name := m[item.name].(payload := item.payload, active := true)];
      } else {
        n := m + map[item.name := Entry(item.payload, true)];
      }
      ok := true;
    }

    static method SaveAll(m: map<string, Entry>, items: seq<Item>, left: Option<nat>)
      returns (n: map<string, Entry>, ok: bool, rest: Option<nat>)
      ensures ok ==> n == Replaced(m, items)
      ensures left.None? ==> ok && rest.None?
    {
      n, ok, rest := Deactivated(m), true, left;
      NothingReplaced(m);
      var i := 0;
      while i < |items|
        invariant i <= |items| && n == Replaced(m, items[..i]) && (left.None? ==> rest.None?)
      {
        n, ok, rest := Save(n, items[i], rest);
        if !ok { return; }
        OneMoreReplaced(m, items[..i], items[i]);
        assert items[..i + 1] == items[..i] + [items[i]];
        i := i + 1;
      }
      assert items[..|items|] == items;
    }

    method SavePipeline(config: Config, from: nat, paused: Option<bool>, left: Option<nat>) returns (r: Outcome)
      modifies this
      ensures nextVersion >= old(nextVersion)
      ensures r.Saved? ==> r.created == old(row).None? && nextVersion == old(nextVersion) + 1
      ensures r.Saved? && r.created ==>
        row == Some(Fresh(config, old(nextVersion), if paused.Some? then paused.value else true))
      ensures r.Saved? && !r.created ==>
        old(row).value.version == from && row == Some(Updated(old(row).value, config, old(nextVersion), paused))
      ensures !r.Saved? ==> row == old(row)
      ensures r.ComparisonFailed? <==> old(row).Some? && old(row).value.version != from
      ensures r.Broken? ==> left.Some?
      ensures forall commits ::
        var s := Do(State(old(row), old(nextVersion), commits), Try(config, from, paused, r.Broken?));
        row == s.row && nextVersion == s.nextVersion && (r.Saved? <==> |s.commits| > |commits|)
    {
      var begun := row;
      var created := row.None?;
      var version := nextVersion;
      if created {
        nextVersion := nextVersion + 1;
        row := Some(Row(version, if paused.None? then true else paused.value, config.groups, map[], map[], map[]));
      } else {
        if row.value.version != from { return ComparisonFailed; }
        nextVersion := nextVersion + 1;
        row := Some(row.value.(version := version, groups := config.groups,
                               paused := if paused.Some? then paused.value else row.value.paused));
      }
      var resources, ok, rest := SaveAll(row.value.resources, config.resources, left);
      if !ok { row := begun; return Broken; }
      row := Some(row.value.(resources := resources));
      var types;
      types, ok, rest := SaveAll(row.value.types, config.types, rest);
      if !ok { row := begun; return Broken; }
      row := Some(row.value.(types := types));
      var jobs;
      jobs, ok, rest := SaveAll(row.value.jobs, config.jobs, rest);
      if !ok { row := begun; return Broken; }
      row := Some(row.value.(jobs := jobs));
      r := Saved(created);
    }
  }

  lemma NothingReplaced(m: map<string, Entry>)
    ensures Deactivated(m) == Replaced(m, [])
  {
  }

  lemma OneMoreReplaced(m: map<string, Entry>, items: seq<Item>, item: Item)
    ensures Replaced(m, items + [item]) == Replaced(m, items)[item.name := Entry(item.payload, true)]
  {
    assert (items + [item])[..|items|] == items;
  }

  // ---- Histories ---------------------------------------------------------------------------

  datatype Commit = Commit(config: Config, from: nat, created: bool, version: nat)

  datatype State = State(row: Option<Row>, nextVersion: nat, commits: seq<Commit>)

  datatype Step =
    | Try(config: Config, from: nat, paused: Option<bool>, broken: bool)
    | Elsewhere(advance: nat)     // other pipelines take versions
    | Destroy

  function Do(s: State, step: Step): State
  {
    match step
    case Elsewhere(n) => s.(nextVersion := s.nextVersion + n)
    case Destroy => s.(row := None)
    case Try(config, from, paused, broken) =>
      if s.row.Some? && s.row.value.version != from then s
      else if broken then s.(nextVersion := s.nextVersion + 1)
      else State(Some(if s.row.None? then Fresh(config, s.nextVersion, if paused.Some? then paused.value else true)
                      else Updated(s.row.value, config, s.nextVersion, paused)),
                 s.nextVersion + 1,
                 s.commits + [Commit(config, from, s.row.None?, s.nextVersion)])
  }

  function Exec(s: State, steps: seq<Step>): State
    decreases |steps|
  {
    if steps == [] then s else Exec(Do(s, steps[0]), steps[1..])
  }

  /** The pipeline is what the last commit made it. */
  predicate ShowsLast(s: State)
  {
    s.row.Some? ==>
      && s.commits != []
      && var last := s.commits[|s.commits| - 1];
         && s.row.value.version == last.version && s.row.value.groups == last.config.groups
         && Active(s.row.value.jobs) == AsMap(last.config.jobs)
         && Active(s.row.value.resources) == AsMap(last.config.resources)
         && Active(s.row.value.types) == AsMap(last.config.types)
  }

  predicate Chained(s: State)
  {
    && (forall i | 0 <= i < |s.commits| :: s.commits[i].version < s.nextVersion)
    && (forall i, j | 0 <= i < j < |s.commits| :: s.commits[i].version < s.commits[j].version)
    && (forall i | 0 <= i < |s.commits| && !s.commits[i].created ::
          i > 0 && s.commits[i].from == s.commits[i - 1].version)
  }

  lemma StepKeepsHistory(s: State, step: Step)
    requires ShowsLast(s) && Chained(s)
    ensures ShowsLast(Do(s, step)) && Chained(Do(s, step))
  {
    hide Replaced, Active, AsMap;
    if step.Try? {
      var c := step.config;
      ReplacedIsActive(map[], c.jobs);
      ReplacedIsActive(map[], c.resources);
      ReplacedIsActive(map[], c.types);
      if s.row.Some? {
        ReplacedIsActive(s.row.value.jobs, c.jobs);
        ReplacedIsActive(s.row.value.resources, c.resources);
        ReplacedIsActive(s.row.value.types, c.types);
      }
    }
  }

  /** Over every history: versions grow; every committed update named the version of
      the commit right before it; and the active jobs, resources and types are
      exactly those of the last commit. */
  lemma {:induction false} HistoryIsLinear(s: State, steps: seq<Step>)
    requires ShowsLast(s) && Chained(s)
    ensures ShowsLast(Exec(s, steps)) && Chained(Exec(s, steps))
    decreases |steps|
  {
    hide Do, ShowsLast, Chained;
    if steps != [] {
      StepKeepsHistory(s, steps[0]);
      HistoryIsLinear(Do(s, steps[0]), steps[1..]);
    }
  }

  /** What a pipeline shows: a configuration, and whether it is paused. */
  datatype Shown = Shown(config: Config, paused: bool)

  /** The save goes through: it is not broken off, and the pipeline is new or at the
      version the save starts from. */
  predicate Saves(s: State, step: Step)
  {
    step.Try? && !step.broken && (s.row.Some? ==> s.row.value.version == step.from)
  }

  /** A save that goes through shows its configuration, paused if it says so, else as
      before, else paused; nothing is left after Destroy; any other step shows no change. */
  function ShownAfter(x: Option<Shown>, s: State, step: Step): Option<Shown>
  {
    if step.Destroy? then None
    else if !Saves(s, step) then x
    else Some(Shown(step.config, match step.paused
                                 case Some(paused) => paused
                                 case None => if x.Some? then x.value.paused else true))
  }

  function ShownBy(x: Option<Shown>, s: State, steps: seq<Step>): Option<Shown>
    decreases |steps|
  {
    if steps == [] then x else ShownBy(ShownAfter(x, s, steps[0]), Do(s, steps[0]), steps[1..])
  }

  predicate Shows(row: Option<Row>, x: Option<Shown>)
  {
    && (row.Some? <==> x.Some?)
    && (row.Some? ==>
          && row.value.paused == x.value.paused && row.value.groups == x.value.config.groups
          && Active(row.value.jobs) == AsMap(x.value.config.jobs)
          && Active(row.value.resources) == AsMap(x.value.config.resources)
          && Active(row.value.types) == AsMap(x.value.config.types))
  }

  lemma StepShows(x: Option<Shown>, s: State, step: Step)
    requires Shows(s.row, x)
    ensures Shows(Do(s, step).row, ShownAfter(x, s, step))
  {
    hide Replaced, Active, AsMap;
    if step.Try? {
      var c := step.config;
      ReplacedIsActive(map[], c.jobs);
      ReplacedIsActive(map[], c.resources);
      ReplacedIsActive(map[], c.types);
      if s.row.Some? {
        ReplacedIsActive(s.row.value.jobs, c.jobs);
        ReplacedIsActive(s.row.value.resources, c.resources);
        ReplacedIsActive(s.row.value.types, c.types);
      }
    }
  }

  /** After every run the pipeline shows the configuration of the last save that went
      through since it was last destroyed. */
  lemma {:induction false} RunShowsLastSave(x: Option<Shown>, s: State, steps: seq<Step>)
    requires Shows(s.row, x)
    ensures Shows(Exec(s, steps).row, ShownBy(x, s, steps))
    decreases |steps|
  {
    hide Do, Shows, ShownAfter;
    if steps != [] {
      StepShows(x, s, steps[0]);
      RunShowsLastSave(ShownAfter(x, s, steps[0]), Do(s, steps[0]), steps[1..]);
    }
  }

  lemma CommitsGrow(s: State, step: Step)
    ensures s.commits <= Do(s, step).commits
    ensures Do(s, step).commits == s.commits && !step.Destroy? ==> Do(s, step).row == s.row
  {
  }

  lemma {:induction false} RunCommitsGrow(s: State, steps: seq<Step>)
    ensures s.commits <= Exec(s, steps).commits
    decreases |steps|
  {
    hide Do;
    if steps != [] {
      CommitsGrow(s, steps[0]);
      RunCommitsGrow(Do(s, steps[0]), steps[1..]);
    }
  }

  /** Saves that are refused or break off, however many, change nothing: as long as
      nothing is committed or destroyed the pipeline stays as it was. */
  lemma {:induction false} OnlyCommitsChange(s: State, steps: seq<Step>)
    requires Exec(s, steps).commits == s.commits && Destroy !in steps
    ensures Exec(s, steps).row == s.row
    decreases |steps|
  {
    hide Do;
    if steps != [] {
      CommitsGrow(s, steps[0]);
      RunCommitsGrow(Do(s, steps[0]), steps[1..]);
      OnlyCommitsChange(Do(s, steps[0]), steps[1..]);
    }
  }
}
