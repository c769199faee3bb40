/**
 * findOrCreate over the two tables, in one transaction that is rolled back and
 * tried again whenever an insert collides with another transaction.
 */
module ResourceStore {
  import opened Options
  import opened ResourceTables

  datatype Outcome = Found(id: nat) | NoBase | Retry

  /** `p` is a config somewhere in `d`. */
  ghost predicate PartOf(p: Config, d: Config)
  {
    p == d || (d.origin.Custom? && PartOf(p, d.origin.cache.config))
  }

  /** `p` is a cache somewhere in `d`. */
  ghost predicate CachePartOf(p: Cache, d: Config)
  {
    d.origin.Custom? && (p == d.origin.cache || CachePartOf(p, d.origin.cache.config))
  }

  /** From `s` to `t` rows were only added, each for a part of `d`. */
  ghost predicate Adds(s: Tables, t: Tables, d: Config)
  {
    && Ok(s) && Ok(t) && Within(s, t)
    && (forall c | c in t.configs && c !in s.configs :: PartOf(ConfigOf(t, c), d))
    && (forall k | k in t.caches && k !in s.caches :: CachePartOf(CacheOf(t, k), d))
  }

  ghost predicate AddsCache(s: Tables, t: Tables, d: Cache)
  {
    && Ok(s) && Ok(t) && Within(s, t)
    && (forall c | c in t.configs && c !in s.configs :: PartOf(ConfigOf(t, c), d.config))
    && (forall k | k in t.caches && k !in s.caches :: CacheOf(t, k) == d || CachePartOf(CacheOf(t, k), d.config))
  }

  /** What a config row would stand for. */
  ghost function RowMeans(t: Tables, row: ConfigRow): Config
    requires Ok(t) && Refers(t, row.parent)
  {
    match row.parent
    case OfBase(b) => Config(Base(t.bases[b]), row.source)
    case OfCache(k) => Config(Custom(CacheOf(t, k)), row.source)
  }

  lemma RowAdded(t: Tables, row: ConfigRow, u: Tables, c: nat)
    requires Ok(t) && Refers(t, row.parent) && Ok(u) && Within(t, u) && c in u.configs && u.configs[c] == row
    ensures ConfigOf(u, c) == RowMeans(t, row)
  {
    assert ConfigOk(u, c);
    if row.parent.OfCache? { WithinKeepsCacheMeaning(t, u, row.parent.id); }
  }

  lemma CacheRowAdded(t: Tables, row: CacheRow, u: Tables, k: nat)
    requires Ok(t) && row.config in t.configs && Ok(u) && Within(t, u) && k in u.caches && u.caches[k] == row
    ensures CacheOf(u, k) == Cache(ConfigOf(t, row.config), row.version, row.params)
  {
    WithinKeepsMeaning(t, u, row.config);
  }

  /** One more config row, standing for `d` itself, after rows for its parts. */
  lemma AddsOneMore(s: Tables, t: Tables, row: ConfigRow, d: Config)
    requires Ok(s) && Ok(t) && Refers(t, row.parent) && RowMeans(t, row) == d
    requires Adds(s, t, d)
    ensures Adds(s, InsertConfig(t, row), d)
  {
    hide Ok, PartOf;
    var u := InsertConfig(t, row);
    InsertConfigIsOk(t, row);
    forall c | c in u.configs && c !in s.configs
      ensures PartOf(ConfigOf(u, c), d)
    {
      OneMoreIsPart(s, t, row, d, c);
    }
    forall k | k in u.caches && k !in s.caches
      ensures CachePartOf(CacheOf(u, k), d)
    {
      WithinKeepsCacheMeaning(t, u, k);
    }
  }

  lemma OneMoreIsPart(s: Tables, t: Tables, row: ConfigRow, d: Config, c: nat)
    requires Ok(t) && Refers(t, row.parent) && RowMeans(t, row) == d && Adds(s, t, d)
    requires var u := InsertConfig(t, row); Ok(u) && Within(t, u) && c in u.configs && c !in s.configs
    ensures PartOf(ConfigOf(InsertConfig(t, row), c), d)
  {
    hide Ok;
    var u := InsertConfig(t, row);
    if c == t.nextConfig { RowAdded(t, row, u, c); } else { WithinKeepsMeaning(t, u, c); }
  }

  lemma AddsOneMoreCache(s: Tables, t: Tables, row: CacheRow, d: Cache)
    requires Ok(s) && Ok(t) && row.config in t.configs && !row.params.Nil? && FindsCacheRow(t, row, None)
    requires Cache(ConfigOf(t, row.config), row.version, row.params) == d && AddsCache(s, t, d)
    ensures AddsCache(s, InsertCache(t, row), d)
  {
    hide Ok, PartOf;
    var u := InsertCache(t, row);
    InsertCacheIsOkIffNew(t, row);
    forall c | c in u.configs && c !in s.configs
      ensures PartOf(ConfigOf(u, c), d.config)
    {
      WithinKeepsMeaning(t, u, c);
    }
    forall k | k in u.caches && k !in s.caches
      ensures CacheOf(u, k) == d || CachePartOf(CacheOf(u, k), d.config)
    {
      if k == t.nextCache { CacheRowAdded(t, row, u, k); } else { WithinKeepsCacheMeaning(t, u, k); }
    }
  }

  /** New ids come from the sequences. */
  ghost predicate FreshIds(s: Tables, t: Tables)
  {
    && s.nextConfig <= t.nextConfig && s.nextCache <= t.nextCache
    && (forall c | c in t.configs && c !in s.configs :: c >= s.nextConfig)
    && (forall k | k in t.caches && k !in s.caches :: k >= s.nextCache)
  }

  function BaseOf(goal: Goal): Config
  {
    match goal
    case ForSession(d) => d
    case ForUse(d) => d.config
  }

  ghost predicate HasBase(t: Tables, d: Config)
  {
    !FindsBase(t, BaseName(d), None)
  }

  /** An attempt that collides: how many inserts went through, and what the other
      transactions commit before the next attempt. */
  datatype Attempt = Attempt(inserts: nat, others: Tables -> Tables)

  /** The tables after the first `n` collisions, had this transaction never run. */
  ghost function Committed(t: Tables, attempts: seq<Attempt>, n: nat): Tables
    requires n <= |attempts|
  {
    if n == 0 then t else attempts[n - 1].others(Committed(t, attempts, n - 1))
  }

  /** What a transaction is for: a check session of a config, or the use of a cache. */
  datatype Goal = ForSession(config: Config) | ForUse(cache: Cache)

  ghost predicate AddsFor(s: Tables, t: Tables, goal: Goal)
  {
    match goal
    case ForSession(d) => Adds(s, t, Normal(d))
    case ForUse(d) => AddsCache(s, t, NormalCache(d))
  }

  ghost predicate Reaches(t: Tables, id: nat, goal: Goal)
    requires Ok(t)
  {
    match goal
    case ForSession(d) => Denotes(t, id, Normal(d))
    case ForUse(d) => CacheDenotes(t, id, NormalCache(d))
  }

  /** Some lookup of the goal can come back empty. */
  ghost predicate MayMiss(t: Tables, goal: Goal)
  {
    match goal
    case ForSession(d) => Finds(t, d, None)
    case ForUse(d) => FindsCache(t, d, None)
  }

  /** While config rows are unique, a goal that is there is not missed, and there is
      one row for it: a second call adds nothing and returns the same id. */
  lemma SecondCallIsTheSame(t: Tables, goal: Goal, first: nat, second: nat)
    requires Ok(t) && Unique(t.configs) && Reaches(t, first, goal) && Reaches(t, second, goal)
    ensures first == second && !MayMiss(t, goal)
  {
    match goal
    case ForSession(d) => SameMeaningSameConfig(t, first, second); NotMissed(t, d, first);
    case ForUse(d) => SameMeaningSameCache(t, first, second); CacheNotMissed(t, d, first);
  }

  /** One connection's view of the tables, while nobody else writes. */
  class Store {
    var tables: Tables
    var sessions: set<nat>
    var uses: set<nat>

    constructor (t: Tables)
      ensures tables == t && sessions == {} && uses == {}
    {
      tables, sessions, uses := t, {}, {};
    }

    /** The row, inserted unless it is there. */
    method ConfigRowFor(row: ConfigRow, limit: Option<nat>) returns (r: Outcome, left: Option<nat>)
      requires Ok(tables) && Refers(tables, row.parent)
      modifies this`tables
      ensures Ok(tables) && Within(old(tables), tables)
      ensures tables == old(tables) ||
        (FindsConfigRow(old(tables), row, None) && tables == InsertConfig(old(tables), row))
      ensures r.Found? ==> r.id in tables.configs && tables.configs[r.id] == row
      ensures r.Retry? <==> FindsConfigRow(old(tables), row, None) && limit == Some(0)
      ensures r.Retry? || !FindsConfigRow(old(tables), row, None) ==> tables == old(tables) && left == limit
      ensures !r.NoBase? && (limit.None? <==> left.None?)
    {
      left := limit;
      if c :| c in tables.configs && tables.configs[c] == row {
        return Found(c), left;
      }
      if left == Some(0) { return Retry, left; }
      InsertConfigIsOk(tables, row);
      tables := InsertConfig(tables, row);
      left := if left.None? then None else Some(left.value - 1);
      r := Found(tables.nextConfig - 1);
    }

    method CacheRowFor(row: CacheRow, limit: Option<nat>) returns (r: Outcome, left: Option<nat>)
      requires Ok(tables) && row.config in tables.configs && !row.params.Nil?
      modifies this`tables
      ensures Ok(tables) && Within(old(tables), tables)
      ensures tables == old(tables) ||
        (FindsCacheRow(old(tables), row, None) && tables == InsertCache(old(tables), row))
      ensures r.Found? ==> r.id in tables.caches && tables.caches[r.id] == row
      ensures r.Retry? <==> FindsCacheRow(old(tables), row, None) && limit == Some(0)
      ensures r.Retry? || !FindsCacheRow(old(tables), row, None) ==> tables == old(tables) && left == limit
      ensures !r.NoBase? && (limit.None? <==> left.None?)
    {
      left := limit;
      if k :| k in tables.caches && tables.caches[k] == row {
        return Found(k), left;
      }
      if left == Some(0) { return Retry, left; }
      InsertCacheIsOkIffNew(tables, row);
      tables := InsertCache(tables, row);
      left := if left.None? then None else Some(left.value - 1);
      r := Found(tables.nextCache - 1);
    }

    /** The whole descriptor, depth first. `limit` is the number of inserts that
        go through before one collides; None when none does. */
    method FindOrCreate(d: Config, limit: Option<nat>) returns (r: Outcome, left: Option<nat>)
      requires Ok(tables)
      modifies this`tables
      ensures Adds(old(tables), tables, Normal(d)) && FreshIds(old(tables), tables)
      ensures r.Found? ==> Denotes(tables, r.id, Normal(d))
      ensures r.NoBase? <==> !HasBase(old(tables), d)
      ensures r.NoBase? ==> tables == old(tables)
      ensures r.Retry? ==> limit.Some?
      ensures limit.None? <==> left.None?
      ensures !Finds(old(tables), d, None) ==> r.Found? && tables == old(tables) && left == limit
      decreases d
    {
      hide Ok, PartOf, CachePartOf, ConfigOf, CacheOf;
      var parent;
      r, parent, left := ParentFor(d, limit);
      if !r.Found? { return; }
      var row := ConfigRow(parent, d.source);
      ghost var before := tables;
      r, left := ConfigRowFor(row, left);
      if tables != before { AddsOneMore(old(tables), before, row, Normal(d)); }
      if r.Found? { RowAdded(before, row, tables, r.id); }
    }

    method ParentFor(d: Config, limit: Option<nat>) returns (r: Outcome, parent: Parent, left: Option<nat>)
      requires Ok(tables)
      modifies this`tables
      ensures Adds(old(tables), tables, Normal(d)) && FreshIds(old(tables), tables)
      ensures r.Found? ==> Refers(tables, parent) && RowMeans(tables, ConfigRow(parent, d.source)) == Normal(d)
      ensures r.NoBase? <==> !HasBase(old(tables), d)
      ensures r.NoBase? ==> tables == old(tables)
      ensures r.Retry? ==> limit.Some?
      ensures limit.None? <==> left.None?
      ensures r.Found? && tables == old(tables) ==> FindsParent(old(tables), d.origin, Some(parent))
      ensures !FindsParent(old(tables), d.origin, None) ==> r.Found? && tables == old(tables) && left == limit
      decreases d, 0
    {
      hide Ok, ConfigOf, CacheOf;
      match d.origin {
        case Custom(cache) =>
          r, left := FindOrCreateCache(cache, limit);
          parent := OfCache(if r.Found? then r.id else 0);
          if r.Found? { FindCacheIsSound(tables, cache, r.id); }
        case Base(name) =>
          left := limit;
          if b :| b in tables.bases && tables.bases[b] == name {
            r, parent := Found(b), OfBase(b);
          } else {
            r, parent := NoBase, OfBase(0);
          }
      }
    }

    method FindOrCreateCache(d: Cache, limit: Option<nat>) returns (r: Outcome, left: Option<nat>)
      requires Ok(tables)
      modifies this`tables
      ensures AddsCache(old(tables), tables, NormalCache(d)) && FreshIds(old(tables), tables)
      ensures r.Found? ==> CacheDenotes(tables, r.id, NormalCache(d))
      ensures r.NoBase? <==> !HasBase(old(tables), d.config)
      ensures r.NoBase? ==> tables == old(tables)
      ensures r.Retry? ==> limit.Some?
      ensures limit.None? <==> left.None?
      ensures !FindsCache(old(tables), d, None) ==> r.Found? && tables == old(tables) && left == limit
      decreases d
    {
      hide Ok, PartOf, CachePartOf, ConfigOf, CacheOf;
      r, left := FindOrCreate(d.config, limit);
      if !r.Found? { return; }
      var row := CacheRow(r.id, d.version, ParamsHash(d.params));
      ghost var before := tables;
      FindIsSound(tables, d.config, r.id);
      r, left := CacheRowFor(row, left);
      if tables != before { AddsOneMoreCache(old(tables), before, row, NormalCache(d)); }
      if r.Found? { CacheRowAdded(before, row, tables, r.id); }
    }

    /** The transaction of one caller: find or create, then use it. */
    method Attempt(goal: Goal, limit: Option<nat>) returns (r: Outcome)
      requires Ok(tables)
      modifies this
      ensures AddsFor(old(tables), tables, goal) && FreshIds(old(tables), tables)
      ensures r.Found? ==> Reaches(tables, r.id, goal)
      ensures r.NoBase? <==> !HasBase(old(tables), BaseOf(goal))
      ensures r.Retry? ==> limit.Some?
      ensures !MayMiss(old(tables), goal) ==> r.Found? && tables == old(tables)
      ensures sessions == old(sessions) + (if r.Found? && goal.ForSession? then {r.id} else {})
      ensures uses == old(uses) + (if r.Found? && goal.ForUse? then {r.id} else {})
    {
      var left;
      match goal {
        case ForSession(d) =>
          r, left := FindOrCreate(d, limit);
          if r.Found? { sessions := sessions + {r.id}; }
        case ForUse(d) =>
          r, left := FindOrCreateCache(d, limit);
          if r.Found? { uses := uses + {r.id}; }
      }
    }

    /** safeFindOrCreate: begin, try, roll back and retry on a collision, commit.
        `start` is what the tables held when the attempt that counted began. */
    method SafeFindOrCreate(goal: Goal, attempts: seq<Attempt>) returns (r: Outcome, ghost start: Tables)
      requires Ok(tables)
      requires forall a, t | a in attempts && Ok(t) :: Ok(a.others(t))
      modifies this
      ensures exists n | 0 <= n <= |attempts| :: start == Committed(old(tables), attempts, n)
      ensures AddsFor(start, tables, goal) && FreshIds(start, tables)
      ensures r.Found? ==> Reaches(tables, r.id, goal)
      ensures r.NoBase? <==> !HasBase(start, BaseOf(goal))
      ensures r.NoBase? || !MayMiss(start, goal) ==> tables == start
      ensures sessions == old(sessions) + (if r.Found? && goal.ForSession? then {r.id} else {})
      ensures uses == old(uses) + (if r.Found? && goal.ForUse? then {r.id} else {})
      ensures !r.Retry?
    {
      var n := 0;
      start := tables;
      while true
        invariant 0 <= n <= |attempts|
        invariant start == tables == Committed(old(tables), attempts, n) && Ok(tables)
        invariant sessions == old(sessions) && uses == old(uses)
        decreases |attempts| - n
      {
        var begun, begunSessions, begunUses := tables, sessions, uses;
        var limit := if n < |attempts| then Some(attempts[n].inserts) else None;
        r := Attempt(goal, limit);
        if r.NoBase? { tables := begun; }
        if !r.Retry? { return; }
        tables, sessions, uses := begun, begunSessions, begunUses;
        tables := attempts[n].others(tables);
        n := n + 1;
        start := tables;
      }
    }
  }
}
