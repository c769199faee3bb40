/**
 * The resource_configs and resource_caches tables. A row's meaning is the
 * descriptor it stands for, read off by following parent ids down to a base
 * type; find-or-create is hash-consing of those descriptors.
 */
module ResourceTables {
  import opened Options

  /** A JSON object or Go's nil map. The stored hash is assumed injective, so the
      tables hold the value itself; nil and empty hash differently. */
  datatype Json = Nil | Object(entries: map<string, string>)

  datatype Config = Config(origin: Origin, source: Json)
  datatype Origin = Base(name: string) | Custom(cache: Cache)
  datatype Cache = Cache(config: Config, version: Json, params: Json)

  /** paramsHash: nil params hash like empty ones. */
  function ParamsHash(params: Json): Json
  {
    if params.Nil? then Object(map[]) else params
  }

  function Normal(d: Config): Config
  {
    match d.origin
    case Base(_) => d
    case Custom(cache) => Config(Custom(NormalCache(cache)), d.source)
  }

  function NormalCache(d: Cache): Cache
  {
    Cache(Normal(d.config), d.version, ParamsHash(d.params))
  }

  /** The base type a descriptor ends in. */
  function BaseName(d: Config): string
  {
    match d.origin
    case Base(name) => name
    case Custom(cache) => BaseName(cache.config)
  }

  // ---- Tables ----------------------------------------------------------------

  /** Exactly one of base_resource_type_id and resource_cache_id is set. */
  datatype Parent = OfBase(id: nat) | OfCache(id: nat)
  datatype ConfigRow = ConfigRow(parent: Parent, source: Json)
  datatype CacheRow = CacheRow(config: nat, version: Json, params: Json)

  datatype Tables = Tables(bases: map<nat, string>, configs: map<nat, ConfigRow>, caches: map<nat, CacheRow>,
                           nextConfig: nat, nextCache: nat)

  /** Foreign keys hold, base type names and cache rows are unique, and ids come from
      sequences: a config's parent cache belongs to an older config. Config rows are
      not known to be unique: one column of their unique key is always null, so the
      key never fires. */
  ghost predicate Ok(t: Tables)
  {
    && Unique(t.bases) && Unique(t.caches)
    && (forall c {:trigger ConfigOk(t, c)} | c in t.configs :: ConfigOk(t, c))
    && (forall k {:trigger CacheOk(t, k)} | k in t.caches :: CacheOk(t, k))
  }

  ghost predicate Unique<Row(!new)>(rows: map<nat, Row>)
  {
    forall a, b | a in rows && b in rows && rows[a] == rows[b] :: a == b
  }

  ghost predicate ConfigOk(t: Tables, c: nat)
    requires c in t.configs
  {
    c < t.nextConfig &&
    match t.configs[c].parent
    case OfBase(b) => b in t.bases
    case OfCache(k) => k in t.caches && t.caches[k].config < c
  }

  ghost predicate CacheOk(t: Tables, k: nat)
    requires k in t.caches
  {
    k < t.nextCache && t.caches[k].config in t.configs && !t.caches[k].params.Nil?
  }

  /** The descriptor a config row stands for. */
  ghost function ConfigOf(t: Tables, c: nat): Config
    requires Ok(t) && c in t.configs
    decreases c, 0
  {
    var row := t.configs[c];
    assert ConfigOk(t, c);
    match row.parent
    case OfBase(b) => Config(Base(t.bases[b]), row.source)
    case OfCache(k) => Config(Custom(CacheOf(t, k)), row.source)
  }

  ghost function CacheOf(t: Tables, k: nat): Cache
    requires Ok(t) && k in t.caches
    decreases t.caches[k].config, 1
  {
    var row := t.caches[k];
    assert CacheOk(t, k);
    Cache(ConfigOf(t, row.config), row.version, row.params)
  }

  /** OriginBaseResourceType: follow the rows down to a base type. */
  ghost function OriginBase(t: Tables, c: nat): (b: nat)
    requires Ok(t) && c in t.configs
    ensures b in t.bases
    decreases c
  {
    assert ConfigOk(t, c);
    match t.configs[c].parent
    case OfBase(b) => b
    case OfCache(k) => assert CacheOk(t, k); OriginBase(t, t.caches[k].config)
  }

  /** Every row's chain reaches the base type its descriptor names. */
  lemma {:induction false} ChainReachesBase(t: Tables, c: nat)
    requires Ok(t) && c in t.configs
    ensures t.bases[OriginBase(t, c)] == BaseName(ConfigOf(t, c))
    decreases c
  {
    assert ConfigOk(t, c);
    match t.configs[c].parent
    case OfBase(_) =>
    case OfCache(k) => assert CacheOk(t, k); ChainReachesBase(t, t.caches[k].config);
  }

  /** A row stands for a normal descriptor. */
  lemma {:induction false} RowsAreNormal(t: Tables, c: nat)
    requires Ok(t) && c in t.configs
    ensures Normal(ConfigOf(t, c)) == ConfigOf(t, c)
    decreases c
  {
    assert ConfigOk(t, c);
    match t.configs[c].parent
    case OfBase(_) =>
    case OfCache(k) => assert CacheOk(t, k); RowsAreNormal(t, t.caches[k].config);
  }

  ghost predicate Denotes(t: Tables, c: nat, d: Config)
    requires Ok(t)
  {
    c in t.configs && ConfigOf(t, c) == d
  }

  ghost predicate CacheDenotes(t: Tables, k: nat, d: Cache)
    requires Ok(t)
  {
    k in t.caches && CacheOf(t, k) == d
  }

  // ---- Sharing -----------------------------------------------------------------

  lemma {:induction false} SameMeaningSameConfig(t: Tables, a: nat, b: nat)
    requires Ok(t) && Unique(t.configs) && a in t.configs && b in t.configs && ConfigOf(t, a) == ConfigOf(t, b)
    ensures a == b
    decreases a, 0
  {
    assert ConfigOk(t, a) && ConfigOk(t, b);
    match t.configs[a].parent
    case OfBase(_) =>
    case OfCache(k) => SameMeaningSameCache(t, k, t.configs[b].parent.id);
  }

  lemma {:induction false} SameMeaningSameCache(t: Tables, a: nat, b: nat)
    requires Ok(t) && Unique(t.configs) && a in t.caches && b in t.caches && CacheOf(t, a) == CacheOf(t, b)
    ensures a == b
    decreases t.caches[a].config, 1
  {
    assert CacheOk(t, a) && CacheOk(t, b);
    SameMeaningSameConfig(t, t.caches[a].config, t.caches[b].config);
  }

  /** Two descriptors share a row exactly when they agree up to nil params: this holds
      of all descriptors exactly when no two config rows are equal. */
  lemma SharedIffEqualIffUnique(t: Tables)
    requires Ok(t)
    ensures Unique(t.configs) <==>
      forall d: Config, e: Config, a: nat, b: nat | Denotes(t, a, Normal(d)) && Denotes(t, b, Normal(e)) ::
        a == b <==> Normal(d) == Normal(e)
  {
    if Unique(t.configs) {
      forall d: Config, e: Config, a: nat, b: nat | Denotes(t, a, Normal(d)) && Denotes(t, b, Normal(e))
        ensures a == b <==> Normal(d) == Normal(e)
      {
        if Normal(d) == Normal(e) { SameMeaningSameConfig(t, a, b); }
      }
    } else {
      var a, b :| a in t.configs && b in t.configs && t.configs[a] == t.configs[b] && a != b;
      EqualRowsMeanTheSame(t, a, b);
      RowsAreNormal(t, a);
      assert Denotes(t, a, Normal(ConfigOf(t, a))) && Denotes(t, b, Normal(ConfigOf(t, a)));
    }
  }

  lemma EqualRowsMeanTheSame(t: Tables, a: nat, b: nat)
    requires Ok(t) && a in t.configs && b in t.configs && t.configs[a] == t.configs[b]
    ensures ConfigOf(t, a) == ConfigOf(t, b)
  {
    assert ConfigOk(t, a) && ConfigOk(t, b);
  }

  /** Cache rows that stand for the same descriptor are the same row exactly when they
      belong to the same config row, whatever the config table holds. */
  lemma CachesSharedIffConfigs(t: Tables, a: nat, b: nat)
    requires Ok(t) && a in t.caches && b in t.caches && CacheOf(t, a) == CacheOf(t, b)
    ensures a == b <==> t.caches[a].config == t.caches[b].config
  {
    assert CacheOk(t, a) && CacheOk(t, b);
  }

  // ---- Find ------------------------------------------------------------------

  ghost predicate FindsConfigRow(t: Tables, row: ConfigRow, r: Option<nat>)
  {
    match r
    case Some(c) => c in t.configs && t.configs[c] == row
    case None => forall c | c in t.configs :: t.configs[c] != row
  }

  ghost predicate FindsCacheRow(t: Tables, row: CacheRow, r: Option<nat>)
  {
    match r
    case Some(k) => k in t.caches && t.caches[k] == row
    case None => forall k | k in t.caches :: t.caches[k] != row
  }

  ghost predicate FindsBase(t: Tables, name: string, r: Option<nat>)
  {
    match r
    case Some(b) => b in t.bases && t.bases[b] == name
    case None => forall b | b in t.bases :: t.bases[b] != name
  }

  /** A run of Find may return `r`: each query returns any one of the rows that match. */
  ghost predicate Finds(t: Tables, d: Config, r: Option<nat>)
    decreases d
  {
    exists parent: Option<Parent> ::
      FindsParent(t, d.origin, parent) &&
      if parent.None? then r.None? else FindsConfigRow(t, ConfigRow(parent.value, d.source), r)
  }

  ghost predicate FindsParent(t: Tables, origin: Origin, r: Option<Parent>)
    decreases origin, 0
  {
    match origin
    case Base(name) =>
      (r.Some? ==> r.value.OfBase?) && FindsBase(t, name, if r.None? then None else Some(r.value.id))
    case Custom(cache) =>
      (r.Some? ==> r.value.OfCache?) && FindsCache(t, cache, if r.None? then None else Some(r.value.id))
  }

  ghost predicate FindsCache(t: Tables, d: Cache, r: Option<nat>)
    decreases d
  {
    exists c: Option<nat> ::
      Finds(t, d.config, c) &&
      if c.None? then r.None? else FindsCacheRow(t, CacheRow(c.value, d.version, ParamsHash(d.params)), r)
  }

  /** A row may be found exactly when it stands for the descriptor, whether or not
      config rows are unique. */
  lemma {:induction false} FindIsSound(t: Tables, d: Config, c: nat)
    requires Ok(t)
    ensures Finds(t, d, Some(c)) <==> Denotes(t, c, Normal(d))
    decreases d
  {
    if c in t.configs {
      assert ConfigOk(t, c);
      var p := t.configs[c].parent;
      if d.origin.Custom? && p.OfCache? { FindCacheIsSound(t, d.origin.cache, p.id); }
      if Denotes(t, c, Normal(d)) { assert FindsParent(t, d.origin, Some(p)); }
    }
    if Finds(t, d, Some(c)) {
      var parent: Option<Parent> :| FindsParent(t, d.origin, parent) && parent.Some?
        && FindsConfigRow(t, ConfigRow(parent.value, d.source), Some(c));
    }
  }

  lemma {:induction false} FindCacheIsSound(t: Tables, d: Cache, k: nat)
    requires Ok(t)
    ensures FindsCache(t, d, Some(k)) <==> CacheDenotes(t, k, NormalCache(d))
    decreases d
  {
    if k in t.caches {
      assert CacheOk(t, k);
      FindIsSound(t, d.config, t.caches[k].config);
    }
    if FindsCache(t, d, Some(k)) {
      var c: Option<nat> :| Finds(t, d.config, c) && c.Some?
        && FindsCacheRow(t, CacheRow(c.value, d.version, ParamsHash(d.params)), Some(k));
      FindIsSound(t, d.config, c.value);
    }
  }

  /** Find always has an answer. */
  lemma {:induction false} FindAnswers(t: Tables, d: Config) returns (r: Option<nat>)
    ensures Finds(t, d, r)
    decreases d
  {
    var parent: Option<Parent>;
    match d.origin {
      case Base(name) => parent := if b :| b in t.bases && t.bases[b] == name then Some(OfBase(b)) else None;
      case Custom(cache) =>
        var k := FindCacheAnswers(t, cache);
        parent := if k.None? then None else Some(OfCache(k.value));
    }
    assert FindsParent(t, d.origin, parent);
    if parent.None? {
      r := None;
    } else {
      var row := ConfigRow(parent.value, d.source);
      r := if c :| c in t.configs && t.configs[c] == row then Some(c) else None;
    }
  }

  lemma {:induction false} FindCacheAnswers(t: Tables, d: Cache) returns (r: Option<nat>)
    ensures FindsCache(t, d, r)
    decreases d
  {
    var c := FindAnswers(t, d.config);
    if c.None? {
      r := None;
    } else {
      var row := CacheRow(c.value, d.version, ParamsHash(d.params));
      r := if k :| k in t.caches && t.caches[k] == row then Some(k) else None;
    }
  }

  /** While config rows are unique, Find misses exactly what is not there. */
  lemma FindMissesIff(t: Tables, d: Config)
    requires Ok(t) && Unique(t.configs)
    ensures Finds(t, d, None) <==> !IsThere(t, Normal(d))
  {
    if IsThere(t, Normal(d)) {
      var c: nat :| Denotes(t, c, Normal(d));
      NotMissed(t, d, c);
    } else {
      var r := FindAnswers(t, d);
      if r.Some? {
        FindIsSound(t, d, r.value);
        assert false;
      }
    }
  }

  ghost predicate IsThere(t: Tables, d: Config)
    requires Ok(t)
  {
    exists c: nat :: Denotes(t, c, d)
  }

  lemma {:induction false} NotMissed(t: Tables, d: Config, c: nat)
    requires Ok(t) && Unique(t.configs) && Denotes(t, c, Normal(d))
    ensures !Finds(t, d, None)
    decreases d
  {
    assert ConfigOk(t, c);
    var p := t.configs[c].parent;
    forall parent: Option<Parent> | FindsParent(t, d.origin, parent)
      ensures parent == Some(p)
    {
      if d.origin.Custom? {
        CacheNotMissed(t, d.origin.cache, p.id);
        if parent.Some? {
          FindCacheIsSound(t, d.origin.cache, parent.value.id);
          SameMeaningSameCache(t, parent.value.id, p.id);
        }
      }
    }
  }

  lemma {:induction false} CacheNotMissed(t: Tables, d: Cache, k: nat)
    requires Ok(t) && Unique(t.configs) && CacheDenotes(t, k, NormalCache(d))
    ensures !FindsCache(t, d, None)
    decreases d
  {
    assert CacheOk(t, k);
    var c := t.caches[k].config;
    NotMissed(t, d.config, c);
    forall found: Option<nat> | Finds(t, d.config, found)
      ensures found == Some(c)
    {
      if found.Some? {
        FindIsSound(t, d.config, found.value);
        SameMeaningSameConfig(t, found.value, c);
      }
    }
  }

  /** With two equal config rows Find can miss a cache that is there. */
  lemma DuplicateHidesCache()
    ensures
      var row := ConfigRow(OfBase(0), Nil);
      var t := Tables(map[0 := "git"], map[0 := row, 1 := row], map[0 := CacheRow(0, Nil, Object(map[]))], 2, 1);
      var d := Cache(Config(Base("git"), Nil), Nil, Nil);
      Ok(t) && CacheDenotes(t, 0, NormalCache(d)) && FindsCache(t, d, Some(0)) && FindsCache(t, d, None)
  {
    var row := ConfigRow(OfBase(0), Nil);
    var t := Tables(map[0 := "git"], map[0 := row, 1 := row], map[0 := CacheRow(0, Nil, Object(map[]))], 2, 1);
    var d := Cache(Config(Base("git"), Nil), Nil, Nil);
    assert ConfigOk(t, 0) && ConfigOk(t, 1) && CacheOk(t, 0);
    FindIsSound(t, d.config, 1);
    FindCacheIsSound(t, d, 0);
    assert FindsCacheRow(t, CacheRow(1, Nil, Object(map[])), None);
  }

  // ---- Growing and shrinking -------------------------------------------------

  /** Every row of `s` is in `t`, unchanged, and the base types are the same. */
  ghost predicate Within(s: Tables, t: Tables)
  {
    && s.bases == t.bases
    && (forall c | c in s.configs :: c in t.configs && s.configs[c] == t.configs[c])
    && (forall k | k in s.caches :: k in t.caches && s.caches[k] == t.caches[k])
  }

  /** Adding or deleting other rows does not change what a row stands for. */
  lemma {:induction false} WithinKeepsMeaning(s: Tables, t: Tables, c: nat)
    requires Ok(s) && Ok(t) && Within(s, t) && c in s.configs
    ensures ConfigOf(s, c) == ConfigOf(t, c)
    decreases c
  {
    assert ConfigOk(s, c) && ConfigOk(t, c);
    match s.configs[c].parent
    case OfBase(_) =>
    case OfCache(k) => assert CacheOk(s, k); WithinKeepsMeaning(s, t, s.caches[k].config);
  }

  lemma WithinKeepsCacheMeaning(s: Tables, t: Tables, k: nat)
    requires Ok(s) && Ok(t) && Within(s, t) && k in s.caches
    ensures CacheOf(s, k) == CacheOf(t, k)
  {
    assert CacheOk(s, k);
    WithinKeepsMeaning(s, t, s.caches[k].config);
  }

  // ---- Inserts ---------------------------------------------------------------

  function InsertConfig(t: Tables, row: ConfigRow): Tables
  {
    t.(configs := t.configs[t.nextConfig := row], nextConfig := t.nextConfig + 1)
  }

  function InsertCache(t: Tables, row: CacheRow): Tables
  {
    t.(caches := t.caches[t.nextCache := row], nextCache := t.nextCache + 1)
  }

  ghost predicate Refers(t: Tables, parent: Parent)
  {
    match parent
    case OfBase(b) => b in t.bases
    case OfCache(k) => k in t.caches
  }

  /** Inserting a config breaks no key; it keeps rows unique exactly when no row like
      it is there already. */
  lemma InsertConfigIsOk(t: Tables, row: ConfigRow)
    requires Ok(t) && Refers(t, row.parent)
    ensures Ok(InsertConfig(t, row)) && Within(t, InsertConfig(t, row))
    ensures Unique(t.configs) ==> (Unique(InsertConfig(t, row).configs) <==> FindsConfigRow(t, row, None))
  {
    hide Unique;
    var u := InsertConfig(t, row);
    assert t.nextConfig in t.configs ==> ConfigOk(t, t.nextConfig);
    assert row.parent.OfCache? ==> CacheOk(t, row.parent.id) && ConfigOk(t, t.caches[row.parent.id].config);
    forall k | k in u.caches
      ensures CacheOk(u, k)
    {
      assert CacheOk(t, k);
    }
    forall c | c in u.configs
      ensures ConfigOk(u, c)
    {
      if c != t.nextConfig { assert ConfigOk(t, c); }
    }
    if Unique(t.configs) { AddedIsUniqueIffNew(t.configs, t.nextConfig, row); }
  }

  /** Inserting a cache breaks the table's unique key exactly when a row like it is
      there already. */
  lemma InsertCacheIsOkIffNew(t: Tables, row: CacheRow)
    requires Ok(t) && row.config in t.configs && !row.params.Nil?
    ensures Ok(InsertCache(t, row)) <==> FindsCacheRow(t, row, None)
    ensures Within(t, InsertCache(t, row))
  {
    hide Unique;
    var u := InsertCache(t, row);
    assert t.nextCache in t.caches ==> CacheOk(t, t.nextCache);
    forall k | k in u.caches
      ensures CacheOk(u, k)
    {
      if k != t.nextCache { assert CacheOk(t, k); }
    }
    AddedIsUniqueIffNew(t.caches, t.nextCache, row);
    forall c | c in u.configs
      ensures ConfigOk(u, c)
    {
      assert ConfigOk(t, c);
    }
  }

  lemma AddedIsUniqueIffNew<Row(!new)>(rows: map<nat, Row>, id: nat, row: Row)
    requires Unique(rows) && id !in rows
    ensures Unique(rows[id := row]) <==> forall a | a in rows :: rows[a] != row
  {
    var more := rows[id := row];
    if a :| a in rows && rows[a] == row {
      assert a in more && id in more && more[a] == more[id];
    }
  }
}
