/**
 * The collectors of resource configs and resource caches. Each deletes what
 * nothing refers to at that moment; together, round after round, they leave
 * exactly the rows a use, an image, a next build input or a check session needs.
 */
module ResourceGc {
  import opened ResourceTables

  /** The two tables and what refers to them: cache ids in resource_cache_uses and
      build_image_resource_caches, the (config, version) pairs of next build
      inputs of unpaused pipelines, and configs with a check session. A pair whose
      config is gone matches no cache. */
  datatype Db = Db(tables: Tables, uses: set<nat>, images: set<nat>, inputs: set<(nat, Json)>, sessions: set<nat>)

  ghost predicate DbOk(s: Db)
  {
    && Ok(s.tables) && s.uses <= s.tables.caches.Keys && s.images <= s.tables.caches.Keys
    && s.sessions <= s.tables.configs.Keys
  }

  ghost predicate CacheRoot(s: Db, k: nat)
    requires k in s.tables.caches
  {
    var row := s.tables.caches[k];
    k in s.uses || k in s.images || (row.config, row.version) in s.inputs
  }

  ghost predicate ConfigKept(s: Db, c: nat)
  {
    c in s.sessions || exists k :: k in s.tables.caches && s.tables.caches[k].config == c
  }

  ghost predicate CacheKept(s: Db, k: nat)
    requires k in s.tables.caches
  {
    CacheRoot(s, k) || exists c :: c in s.tables.configs && s.tables.configs[c].parent == OfCache(k)
  }

  /** CleanUnreferencedConfigs. */
  ghost function CleanConfigs(s: Db): Db
  {
    s.(tables := s.tables.(configs := map c | c in s.tables.configs && ConfigKept(s, c) :: s.tables.configs[c]))
  }

  /** CleanUpInvalidCaches. */
  ghost function CleanCaches(s: Db): Db
  {
    s.(tables := s.tables.(caches := map k | k in s.tables.caches && CacheKept(s, k) :: s.tables.caches[k]))
  }

  /** One run of the collector: configs, then caches. */
  ghost function Round(s: Db): Db
  {
    CleanCaches(CleanConfigs(s))
  }

  ghost function Rounds(s: Db, n: nat): Db
    decreases n
  {
    if n == 0 then s else Rounds(Round(s), n - 1)
  }

  // ---- What is needed ----------------------------------------------------------

  datatype Row = C(id: nat) | K(id: nat)

  ghost predicate Has(s: Db, r: Row)
  {
    match r
    case C(c) => c in s.tables.configs
    case K(k) => k in s.tables.caches
  }

  ghost predicate Root(s: Db, r: Row)
  {
    Has(s, r) &&
    match r
    case C(c) => c in s.sessions
    case K(k) => CacheRoot(s, k)
  }

  ghost predicate Above(s: Db, child: Row, r: Row)
  {
    Has(s, child) &&
    match child
    case C(c) => r.K? && s.tables.configs[c].parent == OfCache(r.id)
    case K(k) => r == C(s.tables.caches[k].config)
  }

  /** A root, or at most `n` parent links below one. */
  ghost predicate Needed(s: Db, r: Row, n: nat)
    decreases n
  {
    Has(s, r) && (Root(s, r) || (n > 0 && exists child :: Above(s, child, r) && Needed(s, child, n - 1)))
  }

  ghost predicate IsNeeded(s: Db, r: Row)
  {
    exists n: nat :: Needed(s, r, n)
  }

  // ---- Cleaning keeps the needed rows ------------------------------------------

  lemma CleanConfigsIsOk(s: Db)
    requires DbOk(s)
    ensures DbOk(CleanConfigs(s)) && Within(CleanConfigs(s).tables, s.tables)
  {
    var u := CleanConfigs(s).tables;
    forall c | c in u.configs
      ensures ConfigOk(u, c)
    {
      assert ConfigOk(s.tables, c);
    }
    forall k | k in u.caches
      ensures CacheOk(u, k)
    {
      assert CacheOk(s.tables, k);
      assert ConfigKept(s, u.caches[k].config);
    }
  }

  lemma CleanCachesIsOk(s: Db)
    requires DbOk(s)
    ensures DbOk(CleanCaches(s)) && Within(CleanCaches(s).tables, s.tables)
  {
    var u := CleanCaches(s).tables;
    forall c | c in u.configs
      ensures ConfigOk(u, c)
    {
      assert ConfigOk(s.tables, c);
      if u.configs[c].parent.OfCache? { assert CacheKept(s, u.configs[c].parent.id); }
    }
    forall k | k in u.caches
      ensures CacheOk(u, k)
    {
      assert CacheOk(s.tables, k);
    }
    forall k | k in s.uses + s.images
      ensures k in u.caches
    {
      assert k in s.tables.caches && CacheKept(s, k);
    }
  }

  /** A needed row survives, and is needed by what survives. */
  lemma {:induction false} CleanConfigsKeepsNeeded(s: Db, r: Row, n: nat)
    requires Needed(s, r, n)
    ensures Needed(CleanConfigs(s), r, n)
    decreases n
  {
    var u := CleanConfigs(s);
    if !Root(s, r) {
      var child :| Above(s, child, r) && Needed(s, child, n - 1);
      CleanConfigsKeepsNeeded(s, child, n - 1);
      assert Above(u, child, r);
    }
  }

  lemma {:induction false} CleanCachesKeepsNeeded(s: Db, r: Row, n: nat)
    requires Needed(s, r, n)
    ensures Needed(CleanCaches(s), r, n)
    decreases n
  {
    var u := CleanCaches(s);
    if !Root(s, r) {
      var child :| Above(s, child, r) && Needed(s, child, n - 1);
      CleanCachesKeepsNeeded(s, child, n - 1);
      assert Above(u, child, r);
    }
  }

  /** Nothing becomes needed by deleting. */
  lemma {:induction false} NeededBefore(s: Db, u: Db, r: Row, n: nat)
    requires Within(u.tables, s.tables) && u == s.(tables := u.tables) && Needed(u, r, n)
    ensures Needed(s, r, n)
    decreases n
  {
    if !Root(u, r) {
      var child :| Above(u, child, r) && Needed(u, child, n - 1);
      NeededBefore(s, u, child, n - 1);
      assert Above(s, child, r);
    }
  }

  lemma NeededStillBefore(s: Db, u: Db, r: Row)
    requires Within(u.tables, s.tables) && u == s.(tables := u.tables)
    ensures IsNeeded(u, r) ==> IsNeeded(s, r)
  {
    if IsNeeded(u, r) {
      var n: nat :| Needed(u, r, n);
      NeededBefore(s, u, r, n);
    }
  }

  lemma NeededIsThere(s: Db, r: Row)
    ensures IsNeeded(s, r) ==> Has(s, r)
  {
  }

  lemma RoundFacts(s: Db)
    requires DbOk(s)
    ensures DbOk(Round(s)) && Within(Round(s).tables, s.tables) && Round(s) == s.(tables := Round(s).tables)
    ensures forall r | IsNeeded(s, r) :: IsNeeded(Round(s), r)
  {
    CleanConfigsIsOk(s);
    CleanCachesIsOk(CleanConfigs(s));
    forall r | IsNeeded(s, r)
      ensures IsNeeded(Round(s), r)
    {
      var n: nat :| Needed(s, r, n);
      CleanConfigsKeepsNeeded(s, r, n);
      CleanCachesKeepsNeeded(CleanConfigs(s), r, n);
    }
  }

  // ---- The fixpoint ------------------------------------------------------------

  /** When a round deletes nothing, every row left is needed: ids grow from parent
      to child, so following references upward ends at a root. */
  lemma {:induction false} StableConfigNeeded(s: Db, c: nat)
    requires DbOk(s) && Round(s) == s && c in s.tables.configs
    ensures IsNeeded(s, C(c))
    decreases s.tables.nextConfig - c, 1
  {
    RoundIsBothClean(s);
    assert c in CleanConfigs(s).tables.configs;
    assert ConfigOk(s.tables, c);
    if c in s.sessions {
      assert Needed(s, C(c), 0);
    } else {
      var k :| k in s.tables.caches && s.tables.caches[k].config == c;
      StableCacheNeeded(s, k);
      var n: nat :| Needed(s, K(k), n);
      assert Above(s, K(k), C(c));
      assert Needed(s, C(c), n + 1);
    }
  }

  lemma {:induction false} StableCacheNeeded(s: Db, k: nat)
    requires DbOk(s) && Round(s) == s && k in s.tables.caches
    requires s.tables.caches[k].config < s.tables.nextConfig
    ensures IsNeeded(s, K(k))
    decreases s.tables.nextConfig - s.tables.caches[k].config, 0
  {
    RoundIsBothClean(s);
    assert k in CleanCaches(s).tables.caches;
    if CacheRoot(s, k) {
      assert Needed(s, K(k), 0);
    } else {
      var c :| c in s.tables.configs && s.tables.configs[c].parent == OfCache(k);
      assert ConfigOk(s.tables, c);
      StableConfigNeeded(s, c);
      var n: nat :| Needed(s, C(c), n);
      assert Above(s, C(c), K(k));
      assert Needed(s, K(k), n + 1);
    }
  }

  lemma RoundIsBothClean(s: Db)
    requires Round(s) == s
    ensures CleanConfigs(s) == s && CleanCaches(s) == s
  {
    assert CleanConfigs(s).tables.configs == s.tables.configs;
  }

  function Size(s: Db): nat
  {
    |s.tables.configs| + |s.tables.caches|
  }

  lemma FewerRows<V>(a: map<nat, V>, b: map<nat, V>)
    requires forall x | x in a :: x in b && a[x] == b[x]
    ensures |a| <= |b| && (|a| == |b| ==> a == b)
  {
    assert a.Keys <= b.Keys;
    SubsetSize(a.Keys, b.Keys);
  }

  lemma {:induction false} SubsetSize(a: set<nat>, b: set<nat>)
    requires a <= b
    ensures |a| <= |b| && (|a| == |b| ==> a == b)
  {
    if x :| x in a {
      SubsetSize(a - {x}, b - {x});
    }
  }

  /** A round either deletes nothing or leaves fewer rows. */
  lemma RoundShrinks(s: Db)
    requires DbOk(s)
    ensures Round(s) == s || Size(Round(s)) < Size(s)
  {
    RoundFacts(s);
    FewerRows(Round(s).tables.configs, s.tables.configs);
    FewerRows(Round(s).tables.caches, s.tables.caches);
  }

  lemma {:induction false} StableForever(s: Db, n: nat)
    requires Round(s) == s
    ensures Rounds(s, n) == s
  {
    if n > 0 { StableForever(s, n - 1); }
  }

  /** After as many rounds as there are rows, what is left is exactly what was
      needed at the start. */
  lemma {:induction false} CollectorsLeaveWhatIsNeeded(s: Db, n: nat, r: Row)
    requires DbOk(s) && n >= Size(s)
    ensures DbOk(Rounds(s, n)) && Round(Rounds(s, n)) == Rounds(s, n)
    ensures Has(Rounds(s, n), r) <==> IsNeeded(s, r)
    decreases n
  {
    hide DbOk, Round, IsNeeded, Has, Size;
    RoundFacts(s);
    RoundShrinks(s);
    if Round(s) == s {
      StableForever(s, n);
      NeededIsThere(s, r);
      if Has(s, r) { StableNeeded(s, r); }
    } else {
      CollectorsLeaveWhatIsNeeded(Round(s), n - 1, r);
      NeededStillBefore(s, Round(s), r);
    }
  }

  lemma StableNeeded(s: Db, r: Row)
    requires DbOk(s) && Round(s) == s && Has(s, r)
    ensures IsNeeded(s, r)
  {
    match r
    case C(c) => StableConfigNeeded(s, c);
    case K(k) =>
      assert CacheOk(s.tables, k) && ConfigOk(s.tables, s.tables.caches[k].config);
      StableCacheNeeded(s, k);
  }

  // ---- Decisions made on an earlier look ---------------------------------------

  /** A check session or a cache refers to one of the configs. */
  ghost predicate ConfigsHeld(s: Db, victims: set<nat>)
  {
    || (exists c :: c in victims && c in s.sessions)
    || (exists k :: k in s.tables.caches && s.tables.caches[k].config in victims)
  }

  /** A use, an image or a config refers to one of the caches. */
  ghost predicate CachesHeld(s: Db, victims: set<nat>)
  {
    || (exists k :: k in victims && (k in s.uses || k in s.images))
    || (exists c ::
          c in s.tables.configs && s.tables.configs[c].parent.OfCache? && s.tables.configs[c].parent.id in victims)
  }

  /** A delete that breaks a foreign key is rejected whole, and the collector takes
      that for success. */
  ghost function DeleteConfigs(s: Db, victims: set<nat>): Db
  {
    if ConfigsHeld(s, victims) then s else s.(tables := s.tables.(configs := s.tables.configs - victims))
  }

  ghost function DeleteCaches(s: Db, victims: set<nat>): Db
  {
    if CachesHeld(s, victims) then s else s.(tables := s.tables.(caches := s.tables.caches - victims))
  }

  lemma DeleteConfigsIsOk(s: Db, victims: set<nat>)
    requires DbOk(s)
    ensures DbOk(DeleteConfigs(s, victims)) && Within(DeleteConfigs(s, victims).tables, s.tables)
  {
    var u := DeleteConfigs(s, victims).tables;
    forall c | c in u.configs
      ensures ConfigOk(u, c)
    {
      assert ConfigOk(s.tables, c);
    }
    forall k | k in u.caches
      ensures CacheOk(u, k)
    {
      assert CacheOk(s.tables, k);
    }
  }

  lemma DeleteCachesIsOk(s: Db, victims: set<nat>)
    requires DbOk(s)
    ensures DbOk(DeleteCaches(s, victims)) && Within(DeleteCaches(s, victims).tables, s.tables)
  {
    var u := DeleteCaches(s, victims).tables;
    forall c | c in u.configs
      ensures ConfigOk(u, c)
    {
      assert ConfigOk(s.tables, c);
    }
    forall k | k in u.caches
      ensures CacheOk(u, k)
    {
      assert CacheOk(s.tables, k);
    }
  }

  /** What the collectors decide to delete in this state. */
  ghost function UnkeptConfigs(s: Db): set<nat>
  {
    set c | c in s.tables.configs && !ConfigKept(s, c)
  }

  ghost function UnkeptCaches(s: Db): set<nat>
  {
    set k | k in s.tables.caches && !CacheKept(s, k)
  }

  /** Deciding and deleting at one moment is the collector's round, and is never
      rejected. */
  lemma FreshDecisionIsClean(s: Db)
    requires DbOk(s)
    ensures DeleteConfigs(s, UnkeptConfigs(s)) == CleanConfigs(s)
    ensures DeleteCaches(s, UnkeptCaches(s)) == CleanCaches(s)
  {
    FreshConfigs(s);
    FreshCaches(s);
  }

  lemma FreshConfigs(s: Db)
    requires DbOk(s)
    ensures DeleteConfigs(s, UnkeptConfigs(s)) == CleanConfigs(s)
  {
    hide Ok;
    var victims := UnkeptConfigs(s);
    assert !ConfigsHeld(s, victims);
    assert s.tables.configs - victims == CleanConfigs(s).tables.configs;
  }

  lemma FreshCaches(s: Db)
    requires DbOk(s)
    ensures DeleteCaches(s, UnkeptCaches(s)) == CleanCaches(s)
  {
    hide Ok;
    var victims := UnkeptCaches(s);
    assert !CachesHeld(s, victims);
    assert s.tables.caches - victims == CleanCaches(s).tables.caches;
  }

  /** However old the decision, no needed config is deleted. */
  lemma NeededConfigSurvives(s: Db, victims: set<nat>, c: nat)
    requires DbOk(s) && IsNeeded(s, C(c))
    ensures c in DeleteConfigs(s, victims).tables.configs
  {
    hide Ok;
    var n: nat :| Needed(s, C(c), n);
    if !Root(s, C(c)) {
      var child :| Above(s, child, C(c)) && Needed(s, child, n - 1);
      assert child.id in s.tables.caches;
    }
  }

  /** A needed cache is deleted exactly when it is marked, nothing marked is held, and a
      next build input needs it: next build inputs hold no foreign key. */
  lemma NeededCacheLostIff(s: Db, victims: set<nat>, k: nat)
    requires DbOk(s) && k in s.tables.caches
    ensures IsNeeded(s, K(k)) && k !in DeleteCaches(s, victims).tables.caches
        <==> k in victims && !CachesHeld(s, victims) && Wanted(s, k)
  {
    hide Ok;
    if IsNeeded(s, K(k)) && k in victims && !CachesHeld(s, victims) {
      var n: nat :| Needed(s, K(k), n);
    }
    if Wanted(s, k) {
      assert Needed(s, K(k), 0);
    }
  }

  /** A next build input asks for the cache. */
  predicate Wanted(s: Db, k: nat)
    requires k in s.tables.caches
  {
    (s.tables.caches[k].config, s.tables.caches[k].version) in s.inputs
  }
}
