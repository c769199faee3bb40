/**
 * The check that a task's inputs and outputs do not share or nest their paths.
 */
module TaskPaths {
  datatype Artifact = Artifact(name: string, path: string)

  datatype TaskConfig = TaskConfig(platform: string, run: string, inputs: seq<Artifact>, outputs: seq<Artifact>)

  datatype Message =
    | SameInput(p: string) | SameOutput(p: string) | InputAndOutput(p: string) | Nests(p: string, under: string)
    | NoPlatform | NoRun | Unnamed | DotPath

  // ---- Paths and their parts -----------------------------------------------------------

  function Split(s: string): (parts: seq<string>)
    ensures parts != []
  {
    if s == "" then [""]
    else
      var rest := Split(s[1..]);
      if s[0] == '/' then [""] + rest else [[s[0]] + rest[0]] + rest[1..]
  }

  function Join(parts: seq<string>): string
    requires parts != []
  {
    if |parts| == 1 then parts[0] else parts[0] + "/" + Join(parts[1..])
  }

  lemma {:induction false} JoinSplit(s: string)
    ensures Join(Split(s)) == s
  {
    if s != "" {
      JoinSplit(s[1..]);
      var rest := Split(s[1..]);
      if s[0] == '/' {
        assert ([""] + rest)[1..] == rest;
        assert s == "/" + s[1..];
      } else {
        var parts := [[s[0]] + rest[0]] + rest[1..];
        assert parts[1..] == rest[1..];
        assert s == [s[0]] + s[1..];
      }
    }
  }

  lemma SplitCons(c: char, s: string)
    ensures Split([c] + s) == Lead(c, Split(s))
  {
    assert ([c] + s)[1..] == s;
  }

  lemma {:induction false} SplitAtSlash(a: string, b: string)
    ensures Split(a + "/" + b) == Split(a) + Split(b)
  {
    hide Split;
    if a == "" {
      SplitCons('/', b);
      assert a + "/" + b == ['/'] + b;
      EmptySplit();
    } else {
      var rest := a[1..];
      SplitAtSlash(rest, b);
      SplitCons(a[0], rest);
      SplitCons(a[0], rest + "/" + b);
      assert a == [a[0]] + rest && a + "/" + b == [a[0]] + (rest + "/" + b);
      JoinParts(a[0], Split(rest), Split(b));
    }
  }

  function Lead(c: char, parts: seq<string>): seq<string>
    requires parts != []
  {
    if c == '/' then [""] + parts else [[c] + parts[0]] + parts[1..]
  }

  lemma JoinParts(c: char, a: seq<string>, b: seq<string>)
    requires a != []
    ensures Lead(c, a + b) == Lead(c, a) + b
  {
    if c == '/' {
      assert [""] + (a + b) == ([""] + a) + b;
    } else {
      assert (a + b)[0] == a[0] && (a + b)[1..] == a[1..] + b;
      assert [[c] + a[0]] + (a[1..] + b) == ([[c] + a[0]] + a[1..]) + b;
    }
  }

  lemma EmptySplit()
    ensures Split("") == [""]
  {
  }

  lemma {:induction false} JoinConcat(a: seq<string>, b: seq<string>)
    requires a != [] && b != []
    ensures Join(a + b) == Join(a) + "/" + Join(b)
  {
    assert (a + b)[1..] == a[1..] + b;
    if |a| > 1 {
      JoinConcat(a[1..], b);
      assert a[0] + "/" + (Join(a[1..]) + "/" + Join(b)) == a[0] + "/" + Join(a[1..]) + "/" + Join(b);
    }
  }

  /** `child` is a path inside the directory `parent`. */
  predicate Under(child: string, parent: string)
  {
    parent + "/" <= child
  }

  /** A path is inside a directory exactly when the directory's parts are a proper
      prefix of its own. */
  lemma UnderByParts(child: string, parent: string)
    ensures Under(child, parent) <==> Split(parent) < Split(child)
  {
    if Under(child, parent) {
      var rest := child[|parent| + 1..];
      assert child == parent + "/" + rest;
      SplitAtSlash(parent, rest);
    }
    if Split(parent) < Split(child) {
      var rest := Split(child)[|Split(parent)|..];
      assert Split(child) == Split(parent) + rest;
      JoinConcat(Split(parent), rest);
      JoinSplit(child);
      JoinSplit(parent);
    }
  }

  /** Being inside is a strict partial order. */
  lemma UnderIsStrictOrder(a: string, b: string, c: string)
    ensures !Under(a, a)
    ensures Under(a, b) ==> !Under(b, a)
    ensures Under(a, b) && Under(b, c) ==> Under(a, c)
  {
    UnderByParts(a, b);
    UnderByParts(b, a);
    UnderByParts(b, c);
    UnderByParts(a, c);
  }

  method PathContains(child: string, parent: string) returns (r: bool)
    ensures r <==> Under(child, parent)
  {
    hide Split, Under;
    UnderByParts(child, parent);
    if child == parent { return false; }
    var childParts, parentParts := Split(child), Split(parent);
    if |childParts| < |parentParts| { return false; }
    var i := 0;
    while i < |parentParts|
      invariant i <= |parentParts| && childParts[..i] == parentParts[..i]
    {
      if childParts[i] != parentParts[i] { return false; }
      i := i + 1;
    }
    assert parentParts[..i] == parentParts;
    assert |childParts| == |parentParts| ==> childParts[..i] == childParts;
    JoinSplit(child);
    JoinSplit(parent);
    r := true;
  }

  // ---- Counting --------------------------------------------------------------------------

  /** `m` is where the artifact is mounted: its path, or its name if it has none, without
      one leading "./". */
  predicate MountedAt(a: Artifact, m: string)
  {
    var chosen := if a.path != "" then a.path else a.name;
    chosen == "./" + m || (chosen == m && !("./" <= chosen))
  }

  /** The paths of the artifacts, in order. */
  predicate AllMounted(artifacts: seq<Artifact>, paths: seq<string>)
  {
    |paths| == |artifacts| && forall i | 0 <= i < |artifacts| :: MountedAt(artifacts[i], paths[i])
  }

  /** Trimming the chosen path. */
  function Normalized(a: Artifact): string
  {
    var path := if a.path != "" then a.path else a.name;
    if "./" <= path then path[2..] else path
  }

  function Paths(artifacts: seq<Artifact>): (r: seq<string>)
    ensures |r| == |artifacts| && forall i | 0 <= i < |r| :: r[i] == Normalized(artifacts[i])
  {
    seq(|artifacts|, i requires 0 <= i < |artifacts| => Normalized(artifacts[i]))
  }

  /** Every artifact is mounted at one path, the trimmed one. */
  lemma MountedIff(a: Artifact, m: string)
    ensures MountedAt(a, m) <==> m == Normalized(a)
  {
    var chosen := if a.path != "" then a.path else a.name;
    assert "./" <= chosen ==> chosen == "./" + chosen[2..];
    assert chosen == "./" + m ==> m == chosen[2..];
  }

  lemma AllMountedIff(artifacts: seq<Artifact>, paths: seq<string>)
    ensures AllMounted(artifacts, paths) <==> paths == Paths(artifacts)
  {
    hide MountedAt, Normalized;
    if |paths| == |artifacts| {
      forall i | 0 <= i < |artifacts|
        ensures MountedAt(artifacts[i], paths[i]) <==> paths[i] == Normalized(artifacts[i])
      {
        MountedIff(artifacts[i], paths[i]);
      }
    }
  }

  lemma PathsConcat(a: seq<Artifact>, b: seq<Artifact>)
    ensures Paths(a + b) == Paths(a) + Paths(b)
  {
  }

  /** `counts` holds how often each of the paths occurs. */
  ghost predicate Counts(counts: map<string, nat>, paths: seq<string>)
  {
    && (forall p :: p in counts <==> p in paths)
    && (forall p | p in counts :: counts[p] == multiset(paths)[p])
  }

  class PathCounter {
    var inputCount: map<string, nat>
    var outputCount: map<string, nat>

    constructor ()
      ensures inputCount == map[] && outputCount == map[]
    {
      inputCount, outputCount := map[], map[];
    }

    /** After one more input the counts are those of the paths with it. */
    method RegisterInput(a: Artifact, ghost paths: seq<string>)
      requires Counts(inputCount, paths)
      modifies this
      ensures forall m | MountedAt(a, m) :: Counts(inputCount, paths + [m])
      ensures outputCount == old(outputCount)
    {
      hide Counts, Normalized, MountedAt, Bumped;
      forall m | MountedAt(a, m)
        ensures m == Normalized(a)
      {
        MountedIff(a, m);
      }
      BumpCounts(inputCount, paths, Normalized(a));
      inputCount := Bumped(inputCount, Normalized(a));
    }

    method RegisterOutput(a: Artifact, ghost paths: seq<string>)
      requires Counts(outputCount, paths)
      modifies this
      ensures forall m | MountedAt(a, m) :: Counts(outputCount, paths + [m])
      ensures inputCount == old(inputCount)
    {
      hide Counts, Normalized, MountedAt, Bumped;
      forall m | MountedAt(a, m)
        ensures m == Normalized(a)
      {
        MountedIff(a, m);
      }
      BumpCounts(outputCount, paths, Normalized(a));
      outputCount := Bumped(outputCount, Normalized(a));
    }

    method InputMessages() returns (messages: seq<Message>)
      ensures messages == [] <==>
        forall p | p in inputCount :: inputCount[p] <= 1 && p !in outputCount && Free(p, AllPaths())
    {
      hide Under;
      messages := [];
      var left := inputCount.Keys;
      while left != {}
        invariant left <= inputCount.Keys
        invariant messages == [] <==> forall p | p in inputCount && p !in left ::
          inputCount[p] <= 1 && p !in outputCount && Free(p, AllPaths())
        decreases |left|
      {
        var path :| path in left;
        if inputCount[path] > 1 { messages := messages + [SameInput(path)]; }
        if path in outputCount { messages := messages + [InputAndOutput(path)]; }
        var inInputs := NestedIn(path, inputCount.Keys);
        var inOutputs := NestedIn(path, outputCount.Keys);
        messages := messages + inInputs + inOutputs;
        left := left - {path};
      }
    }

    method OutputMessages() returns (messages: seq<Message>)
      ensures messages == [] <==> forall p | p in outputCount :: outputCount[p] <= 1 && Free(p, AllPaths())
    {
      hide Under;
      messages := [];
      var left := outputCount.Keys;
      while left != {}
        invariant left <= outputCount.Keys
        invariant messages == [] <==>
          forall p | p in outputCount && p !in left :: outputCount[p] <= 1 && Free(p, AllPaths())
        decreases |left|
      {
        var path :| path in left;
        if outputCount[path] > 1 { messages := messages + [SameOutput(path)]; }
        var inOutputs := NestedIn(path, outputCount.Keys);
        var inInputs := NestedIn(path, inputCount.Keys);
        messages := messages + inOutputs + inInputs;
        left := left - {path};
      }
    }

    ghost function AllPaths(): set<string>
      reads this
    {
      inputCount.Keys + outputCount.Keys
    }

    method GetErrorMessages() returns (messages: seq<Message>)
      ensures messages == [] <==>
        && (forall p | p in inputCount :: inputCount[p] <= 1 && p !in outputCount)
        && (forall p | p in outputCount :: outputCount[p] <= 1)
        && (forall p | p in AllPaths() :: Free(p, AllPaths()))
    {
      hide Free;
      var first := InputMessages();
      var second := OutputMessages();
      messages := first + second;
      assert messages == [] <==> first == [] && second == [];
      if first == [] && second == [] {
        assert forall p | p in AllPaths() :: p in inputCount || p in outputCount;
        assert forall p | p in AllPaths() :: Free(p, AllPaths());
      }
      if forall p | p in AllPaths() :: Free(p, AllPaths()) {
        assert forall p | p in inputCount :: p in AllPaths();
        assert forall p | p in outputCount :: p in AllPaths();
      }
    }
  }

  ghost predicate Free(path: string, parents: set<string>)
  {
    forall q | q in parents :: !Under(path, q)
  }

  function Bumped(counts: map<string, nat>, path: string): map<string, nat>
  {
    counts[path := if path in counts then counts[path] + 1 else 1]
  }

  method NestedIn(path: string, parents: set<string>) returns (messages: seq<Message>)
    ensures messages == [] <==> Free(path, parents)
  {
    hide Under;
    messages := [];
    var left := parents;
    while left != {}
      invariant left <= parents
      invariant messages == [] <==> forall q | q in parents - left :: !Under(path, q)
      decreases |left|
    {
      var parent :| parent in left;
      var contains := PathContains(path, parent);
      if contains { messages := messages + [Nests(path, parent)]; }
      left := left - {parent};
    }
  }

  lemma BumpCounts(counts: map<string, nat>, paths: seq<string>, path: string)
    requires Counts(counts, paths)
    ensures Counts(Bumped(counts, path), paths + [path])
  {
    assert multiset(paths + [path]) == multiset(paths) + multiset{path};
  }

  // ---- The whole check -------------------------------------------------------------------

  predicate Distinct(paths: seq<string>)
  {
    forall i, j | 0 <= i < j < |paths| :: paths[i] != paths[j]
  }

  predicate Flat(paths: seq<string>)
  {
    forall i, j | 0 <= i < |paths| && 0 <= j < |paths| :: !Under(paths[i], paths[j])
  }

  lemma {:induction false} DistinctByCount(paths: seq<string>)
    ensures Distinct(paths) <==> forall p | p in paths :: multiset(paths)[p] <= 1
  {
    if paths != [] {
      var rest, last := paths[..|paths| - 1], paths[|paths| - 1];
      DistinctByCount(rest);
      assert paths == rest + [last];
      assert multiset(paths) == multiset(rest) + multiset{last};
      assert forall p | p in rest :: p in paths;
      assert last in paths;
      if last in rest {
        var i :| 0 <= i < |rest| && rest[i] == last;
        assert paths[i] == paths[|rest|];
        assert multiset(rest)[last] >= 1;
      }
      assert forall i | 0 <= i < |rest| :: paths[i] == rest[i];
    }
  }

  /** No message exactly when all paths, of inputs and outputs together, are distinct
      and none is inside another. */
  method ValidateOverlappingPaths(inputs: seq<Artifact>, outputs: seq<Artifact>) returns (messages: seq<Message>)
    ensures forall paths | AllMounted(inputs + outputs, paths) :: messages == [] <==> Distinct(paths) && Flat(paths)
  {
    hide Under, Counts, Normalized, Free, Distinct, Flat, Bumped, MountedAt, AllMounted;
    var counter := new PathCounter();
    ghost var ins, outs := Paths(inputs), Paths(outputs);
    NoCounts();
    var i := 0;
    while i < |inputs|
      invariant i <= |inputs| && counter.outputCount == map[]
      invariant Counts(counter.inputCount, ins[..i])
    {
      assert ins[..i + 1] == ins[..i] + [ins[i]];
      MountedIff(inputs[i], ins[i]);
      counter.RegisterInput(inputs[i], ins[..i]);
      i := i + 1;
    }
    assert ins[..|inputs|] == ins;
    i := 0;
    while i < |outputs|
      invariant i <= |outputs|
      invariant Counts(counter.inputCount, ins) && Counts(counter.outputCount, outs[..i])
    {
      assert outs[..i + 1] == outs[..i] + [outs[i]];
      MountedIff(outputs[i], outs[i]);
      counter.RegisterOutput(outputs[i], outs[..i]);
      i := i + 1;
    }
    assert outs[..|outputs|] == outs;
    messages := counter.GetErrorMessages();
    CountsSayAll(counter.inputCount, counter.outputCount, counter.AllPaths(), ins, outs);
    OnlyPaths(inputs, outputs);
  }

  lemma OnlyPaths(inputs: seq<Artifact>, outputs: seq<Artifact>)
    ensures forall paths | AllMounted(inputs + outputs, paths) :: paths == Paths(inputs) + Paths(outputs)
  {
    hide AllMounted;
    forall paths | AllMounted(inputs + outputs, paths)
      ensures paths == Paths(inputs) + Paths(outputs)
    {
      AllMountedIff(inputs + outputs, paths);
      PathsConcat(inputs, outputs);
    }
  }

  lemma NoCounts()
    ensures Counts(map[], [])
  {
  }

  lemma CountsSayAll(inputCount: map<string, nat>, outputCount: map<string, nat>, all: set<string>,
                     ins: seq<string>, outs: seq<string>)
    requires Counts(inputCount, ins) && Counts(outputCount, outs) && all == inputCount.Keys + outputCount.Keys
    ensures
      (&& (forall p | p in inputCount :: inputCount[p] <= 1 && p !in outputCount)
       && (forall p | p in outputCount :: outputCount[p] <= 1)
       && (forall p | p in all :: Free(p, all)))
      <==> Distinct(ins + outs) && Flat(ins + outs)
  {
    DistinctByCounts(inputCount, outputCount, ins, outs);
    FlatByKeys(inputCount, outputCount, ins, outs);
  }

  lemma FlatByKeys(inputCount: map<string, nat>, outputCount: map<string, nat>, ins: seq<string>, outs: seq<string>)
    requires Counts(inputCount, ins) && Counts(outputCount, outs)
    ensures Flat(ins + outs) <==>
      forall p | p in inputCount.Keys + outputCount.Keys :: Free(p, inputCount.Keys + outputCount.Keys)
  {
    hide Under;
    var all, keys := ins + outs, inputCount.Keys + outputCount.Keys;
    assert forall p :: p in all <==> p in keys;
    assert forall i | 0 <= i < |all| :: all[i] in keys;
    if Flat(all) {
      forall p, q | p in keys && q in keys
        ensures !Under(p, q)
      {
        var i :| 0 <= i < |all| && all[i] == p;
        var j :| 0 <= j < |all| && all[j] == q;
        assert !Under(all[i], all[j]);
      }
    }
  }

  lemma DistinctByCounts(inputCount: map<string, nat>, outputCount: map<string, nat>,
                         ins: seq<string>, outs: seq<string>)
    requires Counts(inputCount, ins) && Counts(outputCount, outs)
    ensures Distinct(ins + outs) <==>
      && (forall p | p in inputCount :: inputCount[p] <= 1 && p !in outputCount)
      && (forall p | p in outputCount :: outputCount[p] <= 1)
  {
    DistinctByCount(ins + outs);
    assert multiset(ins + outs) == multiset(ins) + multiset(outs);
    assert forall p :: p in ins + outs <==> p in ins || p in outs;
    assert forall p | p in ins :: multiset(ins)[p] >= 1;
    assert forall p | p in outs :: multiset(outs)[p] >= 1;
  }

  // ---- The task configuration ------------------------------------------------------------

  predicate AllNamed(artifacts: seq<Artifact>)
  {
    forall i | 0 <= i < |artifacts| :: artifacts[i].name != ""
  }

  /** The paths are distinct and unnested, and a path "." is the only one. */
  predicate PathsOk(paths: seq<string>)
  {
    ("." in paths ==> |paths| == 1) && Distinct(paths) && Flat(paths)
  }

  /** A platform, something to run, and named inputs and outputs on paths in order. */
  ghost predicate TaskValid(c: TaskConfig)
  {
    && c.platform != "" && c.run != ""
    && AllNamed(c.inputs) && AllNamed(c.outputs)
    && forall paths | AllMounted(c.inputs + c.outputs, paths) :: PathsOk(paths)
  }

  method ValidateNames(artifacts: seq<Artifact>) returns (messages: seq<Message>)
    ensures messages == [] <==> AllNamed(artifacts)
  {
    messages := [];
    var i := 0;
    while i < |artifacts|
      invariant i <= |artifacts| && (messages == [] <==> forall k | 0 <= k < i :: artifacts[k].name != "")
    {
      if artifacts[i].name == "" { messages := messages + [Unnamed]; }
      i := i + 1;
    }
  }

  method ValidateDotPath(inputs: seq<Artifact>, outputs: seq<Artifact>) returns (messages: seq<Message>)
    ensures forall paths | AllMounted(inputs + outputs, paths) :: messages == [] <==> ("." in paths ==> |paths| == 1)
  {
    hide Normalized, AllMounted;
    OnlyPaths(inputs, outputs);
    var dotPath := false;
    var pathCount := 0;
    ghost var paths := Paths(inputs) + Paths(outputs);
    while pathCount < |inputs|
      invariant pathCount <= |inputs| && (dotPath <==> "." in paths[..pathCount])
    {
      if Normalized(inputs[pathCount]) == "." { dotPath := true; }
      assert paths[..pathCount + 1] == paths[..pathCount] + [Normalized(inputs[pathCount])];
      pathCount := pathCount + 1;
    }
    while pathCount < |inputs| + |outputs|
      invariant |inputs| <= pathCount <= |paths| == |inputs| + |outputs| && (dotPath <==> "." in paths[..pathCount])
    {
      if Normalized(outputs[pathCount - |inputs|]) == "." { dotPath := true; }
      assert paths[..pathCount + 1] == paths[..pathCount] + [Normalized(outputs[pathCount - |inputs|])];
      pathCount := pathCount + 1;
    }
    assert paths[..pathCount] == paths;
    messages := if pathCount > 1 && dotPath then [DotPath] else [];
  }

  /** The configuration is refused exactly when it is not valid. */
  method ValidateTask(c: TaskConfig) returns (messages: seq<Message>)
    ensures messages == [] <==> TaskValid(c)
  {
    hide Distinct, Flat, AllNamed, AllMounted;
    OnlyPaths(c.inputs, c.outputs);
    AllMountedIff(c.inputs + c.outputs, Paths(c.inputs + c.outputs));
    messages := [];
    if c.platform == "" { messages := messages + [NoPlatform]; }
    if c.run == "" { messages := messages + [NoRun]; }
    var ins := ValidateNames(c.inputs);
    var outs := ValidateNames(c.outputs);
    var dot := ValidateDotPath(c.inputs, c.outputs);
    var overlaps := ValidateOverlappingPaths(c.inputs, c.outputs);
    messages := messages + ins + outs + dot + overlaps;
  }
}
