/**
 * Two ways to find the base type behind a custom resource type: the recursive
 * construction of a resource config, and the loop by which a worker picks the type
 * it must support. Both forget types they have passed, so both end on cycles.
 */
module TypeResolution {
  import opened Options
  import opened ResourceTables

  datatype Type = Type(name: string, typ: string, source: Json, version: Json)

  // ---- The recursive construction ----------------------------------------------------

  function Lookup(types: seq<Type>, name: string): (r: Option<Type>)
    ensures r.Some? ==> r.value in types && r.value.name == name
    ensures r.None? ==> forall t | t in types :: t.name != name
  {
    if types == [] then None else if types[0].name == name then Some(types[0]) else Lookup(types[1..], name)
  }

  function Without(types: seq<Type>, name: string): (r: seq<Type>)
    ensures |r| <= |types| && ((exists t :: t in types && t.name == name) ==> |r| < |types|)
  {
    if types == [] then [] else (if types[0].name != name then [types[0]] else []) + Without(types[1..], name)
  }

  function Construct(name: string, source: Json, types: seq<Type>): Config
    decreases |types|
  {
    var custom := Lookup(types, name);
    if custom.None? then Config(Base(name), source)
    else
      var t := custom.value;
      Config(Custom(Cache(Construct(t.typ, t.source, Without(types, t.name)), t.version, Nil)), source)
  }

  // ---- The loop ----------------------------------------------------------------------

  /** A name's type, where a later entry replaces an earlier one. */
  function LastOf(types: seq<Type>): map<string, string>
  {
    if types == [] then map[]
    else LastOf(types[..|types| - 1])[types[|types| - 1].name := types[|types| - 1].typ]
  }

  /** Follow the map from `name`, dropping each name as it is passed. */
  function Follow(m: map<string, string>, name: string): string
    decreases |m|
  {
    if name in m then Shrinks(m, name); Follow(m - {name}, m[name]) else name
  }

  lemma Shrinks(m: map<string, string>, name: string)
    requires name in m
    ensures |m - {name}| < |m|
  {
    assert (m - {name}).Keys == m.Keys - {name};
  }

  /** The loop looks the first name up without dropping it. */
  method DetermineUnderlyingTypeName(name: string, types: seq<Type>) returns (r: string)
    ensures r == Picked(LastOf(types), name)
  {
    var m: map<string, string> := map[];
    var i := 0;
    while i < |types|
      invariant i <= |types| && m == LastOf(types[..i])
    {
      assert types[..i + 1][..i] == types[..i];
      m := m[types[i].name := types[i].typ];
      i := i + 1;
    }
    assert types[..|types|] == types;
    r := name;
    var ok := r in m;
    var typ := if ok then m[r] else "";
    ghost var whole := m;
    while ok
      invariant ok ==> Follow(m, typ) == Picked(whole, name)
      invariant !ok ==> r == Picked(whole, name)
      decreases |m| + if ok then 1 else 0
    {
      r := typ;
      ok := r in m;
      if ok { Shrinks(m, r); }
      typ := if ok then m[r] else "";
      m := m - {r};
    }
  }

  function Picked(m: map<string, string>, name: string): string
  {
    if name in m then Follow(m, m[name]) else name
  }

  // ---- The construction follows the map too ------------------------------------------

  /** A name's type, where the first entry counts. */
  function FirstOf(types: seq<Type>): map<string, string>
  {
    if types == [] then map[] else FirstOf(types[1..])[types[0].name := types[0].typ]
  }

  lemma {:induction false} LookupIsFirst(types: seq<Type>, name: string)
    ensures Lookup(types, name).Some? <==> name in FirstOf(types)
    ensures Lookup(types, name).Some? ==> Lookup(types, name).value.typ == FirstOf(types)[name]
  {
    if types != [] { LookupIsFirst(types[1..], name); }
  }

  lemma {:induction false} WithoutDrops(types: seq<Type>, name: string)
    ensures FirstOf(Without(types, name)) == FirstOf(types) - {name}
  {
    if types != [] {
      WithoutDrops(types[1..], name);
      var rest := Without(types[1..], name);
      if types[0].name != name {
        assert ([types[0]] + rest)[1..] == rest;
      } else {
        assert Without(types, name) == rest;
      }
      assert FirstOf(types) - {name} == FirstOf(Without(types, name));
    }
  }

  /** The config constructed for a type ends in the base type that following the
      types gives, on every list of types. */
  lemma {:induction false} ConstructFollows(name: string, source: Json, types: seq<Type>)
    ensures BaseName(Construct(name, source, types)) == Follow(FirstOf(types), name)
    decreases |types|
  {
    LookupIsFirst(types, name);
    var custom := Lookup(types, name);
    if custom.Some? {
      WithoutDrops(types, name);
      ConstructFollows(custom.value.typ, custom.value.source, Without(types, name));
    }
  }

  /** The sources of a config and of the configs it was created by, from the top. */
  function Sources(c: Config): seq<Json>
  {
    [c.source] + if c.origin.Base? then [] else Sources(c.origin.cache.config)
  }

  /** The versions and params of the caches in between. */
  function Versions(c: Config): seq<(Json, Json)>
  {
    if c.origin.Base? then []
    else [(c.origin.cache.version, c.origin.cache.params)] + Versions(c.origin.cache.config)
  }

  function SourcesOf(chain: seq<Type>): (r: seq<Json>)
    ensures |r| == |chain| && forall i | 0 <= i < |r| :: r[i] == chain[i].source
  {
    if chain == [] then [] else [chain[0].source] + SourcesOf(chain[1..])
  }

  function VersionsOf(chain: seq<Type>): (r: seq<(Json, Json)>)
    ensures |r| == |chain| && forall i | 0 <= i < |r| :: r[i] == (chain[i].version, Nil)
  {
    if chain == [] then [] else [(chain[0].version, Nil)] + VersionsOf(chain[1..])
  }

  /** Entries that lead from `name` to `base`, each the type of the one before and none
      passed twice. */
  predicate Leads(chain: seq<Type>, name: string, base: string)
  {
    && (if chain == [] then base == name else chain[0].name == name && base == chain[|chain| - 1].typ)
    && (forall i | 0 <= i < |chain| - 1 :: chain[i + 1].name == chain[i].typ)
    && (forall i, j | 0 <= i < j < |chain| :: chain[i].name != chain[j].name)
  }

  /** The entries are the first of their names, and lead as far as they can. */
  ghost predicate Exhausts(types: seq<Type>, chain: seq<Type>, base: string)
  {
    && (forall i | 0 <= i < |chain| :: Lookup(types, chain[i].name) == Some(chain[i]))
    && (Lookup(types, base).None? || exists t :: t in chain && t.name == base)
  }

  /** The constructed config carries the given source, and below it, level by level, the
      source and the version of the type it came from: the entries that lead from the
      given type to the base type, each the first of its name, until a name has no entry
      or has been passed. */
  lemma {:induction false} ConstructCarries(name: string, source: Json, types: seq<Type>) returns (chain: seq<Type>)
    ensures var c := Construct(name, source, types);
      && Sources(c) == [source] + SourcesOf(chain) && Versions(c) == VersionsOf(chain)
      && Leads(chain, name, BaseName(c))
      && Exhausts(types, chain, BaseName(c))
    decreases |types|
  {
    hide Construct, Sources, Versions, SourcesOf, VersionsOf, BaseName, Without, Lookup, Leads, Exhausts;
    var custom := Lookup(types, name);
    ConstructStep(name, source, types);
    chain := [];
    if custom.None? {
      AtBase(name, source, types);
    } else {
      var t := custom.value;
      var rest := ConstructCarries(t.typ, t.source, Without(types, t.name));
      chain := [t] + rest;
      var below := Construct(t.typ, t.source, Without(types, t.name));
      OneLevel(below, t, rest, source);
      FirstEntries(types, t, rest, BaseName(below));
      ChainExtends(t, rest, BaseName(below));
    }
  }

  lemma FirstEntries(types: seq<Type>, t: Type, rest: seq<Type>, base: string)
    requires Lookup(types, t.name) == Some(t) && Exhausts(Without(types, t.name), rest, base)
    ensures Exhausts(types, [t] + rest, base) && forall i | 0 <= i < |rest| :: rest[i].name != t.name
  {
    hide Without, Lookup;
    var chain := [t] + rest;
    forall i | 0 <= i < |rest|
      ensures rest[i].name != t.name && Lookup(types, rest[i].name) == Some(rest[i])
    {
      LookupWithout(types, t.name, rest[i].name);
    }
    LookupWithout(types, t.name, base);
    assert t in chain && forall x | x in rest :: x in chain;
  }

  lemma ConstructStep(name: string, source: Json, types: seq<Type>)
    ensures var custom := Lookup(types, name);
      Construct(name, source, types) ==
        if custom.None? then Config(Base(name), source)
        else
          var t := custom.value;
          Config(Custom(Cache(Construct(t.typ, t.source, Without(types, t.name)), t.version, Nil)), source)
  {
  }

  lemma AtBase(name: string, source: Json, types: seq<Type>)
    requires Lookup(types, name).None?
    ensures var c := Config(Base(name), source);
      && Sources(c) == [source] + SourcesOf([]) && Versions(c) == VersionsOf([])
      && Leads([], name, BaseName(c)) && Exhausts(types, [], BaseName(c))
  {
  }

  lemma OneLevel(below: Config, t: Type, rest: seq<Type>, source: Json)
    requires Sources(below) == [t.source] + SourcesOf(rest) && Versions(below) == VersionsOf(rest)
    ensures var c := Config(Custom(Cache(below, t.version, Nil)), source);
      && Sources(c) == [source] + SourcesOf([t] + rest) && Versions(c) == VersionsOf([t] + rest)
      && BaseName(c) == BaseName(below)
  {
    assert ([t] + rest)[1..] == rest;
  }

  lemma {:induction false} LookupWithout(types: seq<Type>, name: string, other: string)
    ensures Lookup(Without(types, name), other) == if other == name then None else Lookup(types, other)
  {
    hide Without, Lookup;
    WithoutStep(types, name);
    if types == [] {
      LookupNone(other);
    } else {
      LookupWithout(types[1..], name, other);
      assert types == [types[0]] + types[1..];
      LookupStep(types[0], types[1..], other);
      LookupStep(types[0], Without(types[1..], name), other);
      assert types[0].name == name ==> Without(types, name) == Without(types[1..], name);
    }
  }

  lemma WithoutStep(types: seq<Type>, name: string)
    ensures types == [] ==> Without(types, name) == []
    ensures types != [] ==>
      Without(types, name) == (if types[0].name != name then [types[0]] else []) + Without(types[1..], name)
  {
  }

  lemma LookupNone(name: string)
    ensures Lookup([], name) == None
  {
  }

  lemma LookupStep(t: Type, rest: seq<Type>, name: string)
    ensures Lookup([t] + rest, name) == if t.name == name then Some(t) else Lookup(rest, name)
  {
    assert ([t] + rest)[1..] == rest;
  }

  lemma ChainExtends(t: Type, rest: seq<Type>, base: string)
    requires Leads(rest, t.typ, base) && forall i | 0 <= i < |rest| :: rest[i].name != t.name
    ensures Leads([t] + rest, t.name, base)
  {
    var chain := [t] + rest;
    forall i | 0 <= i < |chain| - 1
      ensures chain[i + 1].name == chain[i].typ
    {
      if i > 0 { assert rest[i - 1 + 1].name == rest[i - 1].typ; }
    }
  }

  predicate DistinctNames(types: seq<Type>)
  {
    forall i, j | 0 <= i < j < |types| :: types[i].name != types[j].name
  }

  lemma {:induction false} FirstSnoc(types: seq<Type>, t: Type)
    ensures FirstOf(types + [t]) == map[t.name := t.typ] + FirstOf(types)
  {
    if types == [] {
      assert types + [t] == [t];
      assert [t][1..] == [];
    } else {
      FirstSnoc(types[1..], t);
      assert (types + [t])[1..] == types[1..] + [t];
    }
  }

  lemma {:induction false} NamesOfFirst(types: seq<Type>, name: string)
    ensures name in FirstOf(types) <==> exists i :: 0 <= i < |types| && types[i].name == name
  {
    if types != [] {
      NamesOfFirst(types[1..], name);
      if i :| 0 <= i < |types[1..]| && types[1..][i].name == name { assert types[i + 1].name == name; }
      if i :| 0 <= i < |types| && types[i].name == name && i > 0 { assert types[1..][i - 1].name == name; }
    }
  }

  /** With distinct names both maps are the same. */
  lemma {:induction false} DistinctAgree(types: seq<Type>)
    requires DistinctNames(types)
    ensures FirstOf(types) == LastOf(types)
  {
    if types != [] {
      var rest, last := types[..|types| - 1], types[|types| - 1];
      DistinctAgree(rest);
      FirstSnoc(rest, last);
      NamesOfFirst(rest, last.name);
      assert types == rest + [last];
    }
  }

  // ---- When they agree ---------------------------------------------------------------

  /** `x` is reached from `y` in at most `n` links. */
  predicate Reaches(m: map<string, string>, y: string, x: string, n: nat)
    decreases n
  {
    y == x || (n > 0 && y in m && Reaches(m, m[y], x, n - 1))
  }

  /** `x` is on a cycle of two or more types. */
  ghost predicate OnLongCycle(m: map<string, string>, x: string)
  {
    x in m && m[x] != x && exists n: nat :: Reaches(m, m[x], x, n)
  }

  /** A path no longer than any from `y` does not pass through `y`. */
  lemma {:induction false} AvoidsStart(m: map<string, string>, z: string, x: string, n: nat, y: string)
    requires Reaches(m, z, x, n) && !Reaches(m, y, x, n)
    ensures Reaches(m - {y}, z, x, n)
    decreases n
  {
    if z != x {
      if Reaches(m, y, x, n - 1) { Longer(m, y, x, n - 1); }
      AvoidsStart(m, m[z], x, n - 1, y);
    }
  }

  lemma {:induction false} Longer(m: map<string, string>, y: string, x: string, n: nat)
    requires Reaches(m, y, x, n)
    ensures Reaches(m, y, x, n + 1)
    decreases n
  {
    if y != x { Longer(m, m[y], x, n - 1); }
  }

  /** The path after the first link needs the first name no more. */
  lemma {:induction false} AfterFirst(m: map<string, string>, y: string, x: string, n: nat) returns (k: nat)
    requires y != x && Reaches(m, y, x, n)
    ensures y in m && Reaches(m - {y}, m[y], x, k)
    decreases n
  {
    if Reaches(m, y, x, n - 1) {
      k := AfterFirst(m, y, x, n - 1);
    } else {
      AvoidsStart(m, m[y], x, n - 1, y);
      k := n - 1;
    }
  }

  /** Without `x`, a walk that would reach `x` stops there. */
  lemma {:induction false} StopsAt(m: map<string, string>, y: string, x: string, n: nat)
    requires Reaches(m, y, x, n)
    ensures Follow(m - {x}, y) == x
    decreases |m|
  {
    if y != x {
      var k := AfterFirst(m, y, x, n);
      Shrinks(m, y);
      StopsAt(m - {y}, m[y], x, k);
      assert m - {x} - {y} == m - {y} - {x};
    }
  }

  /** With `x` leading to a name already passed, it stops at that name. */
  lemma {:induction false} StopsAfter(m: map<string, string>, z: string, x: string, n: nat)
    requires Reaches(m, z, x, n) && x in m && m[x] !in m
    ensures Follow(m, z) == m[x]
    decreases |m|
  {
    if z != x {
      var k := AfterFirst(m, z, x, n);
      Shrinks(m, z);
      StopsAfter(m - {z}, m[z], x, k);
    }
  }

  /** A walk that never reaches `x` does not notice its absence. */
  lemma {:induction false} NeverNoticed(m: map<string, string>, y: string, x: string)
    requires forall n: nat :: !Reaches(m, y, x, n)
    ensures Follow(m - {x}, y) == Follow(m, y)
    decreases |m|
  {
    assert !Reaches(m, y, x, 0);
    if y in m {
      forall n: nat
        ensures !Reaches(m - {y}, m[y], x, n)
      {
        OneLinkMore(m, y, x, n);
      }
      Shrinks(m, y);
      NeverNoticed(m - {y}, m[y], x);
      assert m - {x} - {y} == m - {y} - {x};
    }
  }

  lemma OneLinkMore(m: map<string, string>, y: string, x: string, n: nat)
    requires y in m
    ensures Reaches(m - {y}, m[y], x, n) ==> Reaches(m, y, x, n + 1)
  {
    if Reaches(m - {y}, m[y], x, n) { InLarger(m, y, m[y], x, n); }
  }

  lemma {:induction false} InLarger(m: map<string, string>, y: string, z: string, x: string, n: nat)
    requires Reaches(m - {y}, z, x, n)
    ensures Reaches(m, z, x, n)
    decreases n
  {
    if z != x { InLarger(m, y, m[z], x, n - 1); }
  }

  /** The two resolvers give the same name exactly when the name they start from is
      not on a cycle of two or more types. */
  lemma AgreeIffNoLongCycle(m: map<string, string>, x: string)
    ensures Picked(m, x) == Follow(m, x) <==> !OnLongCycle(m, x)
  {
    if x in m && m[x] != x {
      if OnLongCycle(m, x) {
        var n: nat :| Reaches(m, m[x], x, n);
        StopsAt(m, m[x], x, n);
        var k := AfterFirst(m, m[x], x, n);
        StopsAfter(m - {m[x]}, m[m[x]], x, k);
      } else {
        NeverNoticed(m, m[x], x);
      }
    }
  }

  /** For pipelines with distinct type names: the worker's choice is the base type of
      the constructed config exactly when the type is on no such cycle. */
  lemma ResolversAgreeIff(types: seq<Type>, name: string, source: Json)
    requires DistinctNames(types)
    ensures
      Picked(LastOf(types), name) == BaseName(Construct(name, source, types)) <==> !OnLongCycle(LastOf(types), name)
  {
    DistinctAgree(types);
    ConstructFollows(name, source, types);
    AgreeIffNoLongCycle(LastOf(types), name);
  }
}
