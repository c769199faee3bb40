/**
 * What holds of the resource tables over every run of transactions, users and
 * collectors, and exactly when config rows stay unique.
 */
module ResourceRuns {
  import opened Options
  import opened ResourceTables
  import opened ResourceStore
  import opened ResourceGc
  import opened Transactions
  import opened TransactionRuns

  /** Runs start from tables in order, with no transaction open. */
  lemma IdleIsOk(db: Db)
    requires DbOk(db)
    ensures Inv(World(db, map[]))
  {
  }

  // ---- What a commit means ---------------------------------------------------------

  /** Whatever others do between its statements, the row a transaction commits stands
      for its goal, and is in use when it is committed. */
  lemma CommitReachesGoal(w: World, p: nat)
    requires Inv(w) && Enabled(w, Commit(p))
    ensures var u, x := Do(w, Commit(p)).db, w.txns[p];
      && DbOk(u)
      && (x.goal.ForSession? ==> x.at.AtConfig? && Reaches(u.tables, x.at.c, x.goal) && x.at.c in u.sessions)
      && (x.goal.ForUse? ==> x.at.AtCache? && Reaches(u.tables, x.at.k, x.goal) && x.at.k in u.uses)
  {
    hide Ok, RowsOk, TriedOk, TodoOk;
    var x := w.txns[p];
    assert TxnOk(w.db.tables, x);
    CommitDbOk(w, p);
    ViewIsOk(w.db.tables, x);
    AtIsSeen(w.db.tables, x);
    assert Fold(Meaning(View(w.db.tables, x), x.at), []) == Meaning(View(w.db.tables, x), x.at);
  }

  /** The transaction's last Begin in the run, if there was one, named this goal. */
  ghost predicate Named(w: World, steps: seq<Step>, p: nat, goal: Goal)
  {
    if exists i: nat :: BeginsAt(steps, i, p) then
      exists i: nat :: LastBegin(steps, i, p) && steps[i].goal == goal
    else p in w.txns && w.txns[p].goal == goal
  }

  predicate BeginsAt(steps: seq<Step>, i: nat, p: nat)
  {
    i < |steps| && steps[i].Begin? && steps[i].p == p
  }

  ghost predicate LastBegin(steps: seq<Step>, i: nat, p: nat)
  {
    BeginsAt(steps, i, p) && forall k: nat | BeginsAt(steps, k, p) :: k <= i
  }

  lemma StepKeepsGoal(w: World, s: Step, p: nat)
    requires Enabled(w, s) && p in Do(w, s).txns
    ensures Do(w, s).txns[p].goal ==
      if s.Begin? && s.p == p then s.goal else if p in w.txns then w.txns[p].goal else Do(w, s).txns[p].goal
    ensures p in w.txns || (s.Begin? && s.p == p)
  {
  }

  lemma {:induction false} GoalsAreNamed(w: World, steps: seq<Step>, p: nat)
    requires Allowed(w, steps) && p in Exec(w, steps).txns
    ensures Named(w, steps, p, Exec(w, steps).txns[p].goal)
    decreases |steps|
  {
    hide Do, Enabled;
    if steps != [] {
      var goal := Exec(w, steps).txns[p].goal;
      GoalsAreNamed(Do(w, steps[0]), steps[1..], p);
      if i: nat :| BeginsAt(steps[1..], i, p) {
        var j: nat :| LastBegin(steps[1..], j, p) && steps[1..][j].goal == goal;
        LaterBegin(steps, j, p);
        assert BeginsAt(steps, j + 1, p);
      } else {
        StepKeepsGoal(w, steps[0], p);
        FirstBegin(steps, p);
      }
    }
  }

  lemma LaterBegin(steps: seq<Step>, j: nat, p: nat)
    requires steps != [] && LastBegin(steps[1..], j, p)
    ensures LastBegin(steps, j + 1, p)
  {
    forall k: nat | BeginsAt(steps, k, p)
      ensures k <= j + 1
    {
      if k > 0 { assert BeginsAt(steps[1..], k - 1, p); }
    }
  }

  lemma FirstBegin(steps: seq<Step>, p: nat)
    requires steps != [] && !exists i: nat :: BeginsAt(steps[1..], i, p)
    ensures forall k: nat | BeginsAt(steps, k, p) :: k == 0
    ensures BeginsAt(steps, 0, p) ==> LastBegin(steps, 0, p)
  {
    forall k: nat | BeginsAt(steps, k, p)
      ensures k == 0
    {
      if k > 0 { assert BeginsAt(steps[1..], k - 1, p); }
    }
  }

  /** Over every run: whatever others do between its statements, the row a transaction
      commits stands for the goal it was begun with, and is in use when it is committed. */
  lemma RunReachesGoal(db: Db, steps: seq<Step>, i: nat, p: nat)
    requires DbOk(db) && Allowed(World(db, map[]), steps) && LastBegin(steps, i, p)
    requires Enabled(Exec(World(db, map[]), steps), Commit(p))
    ensures
      var w, goal := Exec(World(db, map[]), steps), steps[i].goal;
      var u, at := Do(w, Commit(p)).db, w.txns[p].at;
      && DbOk(u)
      && (goal.ForSession? ==> at.AtConfig? && Reaches(u.tables, at.c, goal) && at.c in u.sessions)
      && (goal.ForUse? ==> at.AtCache? && Reaches(u.tables, at.k, goal) && at.k in u.uses)
  {
    hide Allowed, Exec, Inv, Do;
    IdleIsOk(db);
    RunKeepsInv(World(db, map[]), steps);
    GoalsAreNamed(World(db, map[]), steps, p);
    CommitReachesGoal(Exec(World(db, map[]), steps), p);
  }

  /** Nothing but a commit adds a row. */
  lemma OnlyCommitAdds(w: World, s: Step)
    requires Inv(w) && Enabled(w, s) && !s.Commit?
    ensures Within(Do(w, s).db.tables, w.db.tables)
  {
    hide Ok, TxnOk, Apart;
    if s.CollectConfigs? { DeleteConfigsIsOk(w.db, s.victims); }
    if s.CollectCaches? { DeleteCachesIsOk(w.db, s.victims); }
  }

  // ---- Uniqueness --------------------------------------------------------------------

  /** The unique key of the caches sees to it that their rows stay unique, and every
      reference holds, in every run. */
  lemma CachesStayUnique(w: World, steps: seq<Step>)
    requires Inv(w) && Allowed(w, steps)
    ensures DbOk(Exec(w, steps).db) && Unique(Exec(w, steps).db.tables.caches)
  {
    hide Allowed, Exec;
    RunKeepsInv(w, steps);
  }

  /** The transaction commits while a row that another one committed after it was
      looked up in vain is still there. */
  ghost predicate Races(w: World, s: Step)
    requires Enabled(w, s)
  {
    s.Commit? && exists c :: c in w.txns[s.p].rivals && c in w.db.tables.configs
  }

  ghost predicate RaceFree(w: World, steps: seq<Step>)
    requires Allowed(w, steps)
    decreases |steps|
  {
    steps == [] || (!Races(w, steps[0]) && RaceFree(Do(w, steps[0]), steps[1..]))
  }

  /** Config rows are unique now and after each of the steps. */
  ghost predicate AlwaysUnique(w: World, steps: seq<Step>)
    requires Allowed(w, steps)
    decreases |steps|
  {
    Unique(w.db.tables.configs) && (steps == [] || AlwaysUnique(Do(w, steps[0]), steps[1..]))
  }

  lemma CommitUniqueIff(w: World, p: nat)
    requires Inv(w) && Enabled(w, Commit(p)) && Unique(w.db.tables.configs)
    ensures Unique(Do(w, Commit(p)).db.tables.configs) <==> !Races(w, Commit(p))
  {
    hide Ok, TxnOk;
    var t, x := w.db.tables, w.txns[p];
    assert TxnOk(t, x);
    OwnRows(t, x);
    OwnIsNew(t, x);
    EqualIsRival(t, x);
    var all := t.configs + x.configs;
    if c :| c in x.rivals && c in t.configs {
      var d :| d in x.configs && x.configs[d] == t.configs[c];
      assert all[c] == all[d] && c != d;
    } else {
      UnionIsUnique(t.configs, x.configs);
    }
  }

  /** At the end of a transaction, a committed row is a rival exactly when it is equal
      to one of the rows inserted. */
  lemma EqualIsRival(t: Tables, x: Txn)
    requires RowsOk(t, x) && TriedOk(t, x) && TodoOk(x) && x.todo == []
    ensures Unique(x.configs)
    ensures forall c | c in t.configs :: c in x.rivals <==> exists d :: d in x.configs && x.configs[d] == t.configs[c]
  {
    forall c | c in t.configs
      ensures c in x.rivals <==> exists d :: d in x.configs && x.configs[d] == t.configs[c]
    {
      if d :| d in x.configs && x.configs[d] == t.configs[c] { assert OwnConfigOk(t, x, d); }
      if c in x.rivals { assert t.configs[c] in x.configs.Values; }
    }
  }

  lemma OthersKeepUnique(w: World, s: Step)
    requires Inv(w) && Enabled(w, s) && !s.Commit? && Unique(w.db.tables.configs)
    ensures Unique(Do(w, s).db.tables.configs)
  {
    hide Do, Enabled, Inv;
    OnlyCommitAdds(w, s);
    var t, u := w.db.tables, Do(w, s).db.tables;
    assert forall c | c in u.configs :: c in t.configs && t.configs[c] == u.configs[c];
  }

  /** Over every run, config rows stay unique exactly when no transaction commits a row
      of which an equal one was committed, and is still there, since its own lookup
      came back empty. */
  lemma {:induction false} StaysUniqueIffRaceFree(w: World, steps: seq<Step>)
    requires Inv(w) && Allowed(w, steps) && Unique(w.db.tables.configs)
    ensures AlwaysUnique(w, steps) <==> RaceFree(w, steps)
    decreases |steps|
  {
    hide Inv, Do, Enabled, Unique, Races;
    if steps != [] {
      StepKeepsInv(w, steps[0]);
      if steps[0].Commit? {
        CommitUniqueIff(w, steps[0].p);
      } else {
        OthersKeepUnique(w, steps[0]);
        NoCommitNoRace(w, steps[0]);
      }
      if Unique(Do(w, steps[0]).db.tables.configs) { StaysUniqueIffRaceFree(Do(w, steps[0]), steps[1..]); }
    }
  }

  lemma NoCommitNoRace(w: World, s: Step)
    requires Enabled(w, s) && !s.Commit?
    ensures !Races(w, s)
  {
  }

  // ---- Meanings last -----------------------------------------------------------------

  /** The id has been given to this row, and nobody is about to commit another. */
  ghost predicate ConfigFixed(w: World, c: nat, row: ConfigRow)
  {
    && c < w.db.tables.nextConfig
    && (c in w.db.tables.configs ==> w.db.tables.configs[c] == row)
    && forall p | p in w.txns :: c !in w.txns[p].configs
  }

  ghost predicate CacheFixed(w: World, k: nat, row: CacheRow)
  {
    && k < w.db.tables.nextCache
    && (k in w.db.tables.caches ==> w.db.tables.caches[k] == row)
    && forall p | p in w.txns :: k !in w.txns[p].caches
  }

  lemma StepKeepsConfigFixed(w: World, s: Step, c: nat, row: ConfigRow)
    requires Enabled(w, s) && ConfigFixed(w, c, row)
    ensures ConfigFixed(Do(w, s), c, row)
  {
  }

  lemma StepKeepsCacheFixed(w: World, s: Step, k: nat, row: CacheRow)
    requires Enabled(w, s) && CacheFixed(w, k, row)
    ensures CacheFixed(Do(w, s), k, row)
  {
  }

  lemma {:induction false} RunKeepsConfigFixed(w: World, steps: seq<Step>, c: nat, row: ConfigRow)
    requires Allowed(w, steps) && ConfigFixed(w, c, row)
    ensures ConfigFixed(Exec(w, steps), c, row)
    decreases |steps|
  {
    hide Do, Enabled, ConfigFixed;
    if steps != [] {
      StepKeepsConfigFixed(w, steps[0], c, row);
      RunKeepsConfigFixed(Do(w, steps[0]), steps[1..], c, row);
    }
  }

  lemma {:induction false} RunKeepsCacheFixed(w: World, steps: seq<Step>, k: nat, row: CacheRow)
    requires Allowed(w, steps) && CacheFixed(w, k, row)
    ensures CacheFixed(Exec(w, steps), k, row)
    decreases |steps|
  {
    hide Do, Enabled, CacheFixed;
    if steps != [] {
      StepKeepsCacheFixed(w, steps[0], k, row);
      RunKeepsCacheFixed(Do(w, steps[0]), steps[1..], k, row);
    }
  }

  lemma ThereIsFixed(w: World)
    requires Inv(w)
    ensures forall c | c in w.db.tables.configs :: ConfigFixed(w, c, w.db.tables.configs[c])
    ensures forall k | k in w.db.tables.caches :: CacheFixed(w, k, w.db.tables.caches[k])
  {
    hide Ok, TxnOk, Apart;
    var t := w.db.tables;
    DbTables(w.db);
    forall p | p in w.txns
      ensures t.configs.Keys !! w.txns[p].configs.Keys && t.caches.Keys !! w.txns[p].caches.Keys
    {
      OwnRows(t, w.txns[p]);
      OwnIsNew(t, w.txns[p]);
    }
    IdsAreGiven(t);
  }

  lemma IdsAreGiven(t: Tables)
    requires Ok(t)
    ensures (forall c | c in t.configs :: c < t.nextConfig) && forall k | k in t.caches :: k < t.nextCache
  {
    forall c | c in t.configs
      ensures c < t.nextConfig
    {
      assert ConfigOk(t, c);
    }
    forall k | k in t.caches
      ensures k < t.nextCache
    {
      assert CacheOk(t, k);
    }
  }

  /** Rows present before and after a run are the same rows. */
  ghost predicate Persists(s: Tables, t: Tables)
  {
    && s.bases == t.bases
    && (forall c | c in s.configs && c in t.configs :: s.configs[c] == t.configs[c])
    && (forall k | k in s.caches && k in t.caches :: s.caches[k] == t.caches[k])
  }

  lemma RunPersists(w: World, steps: seq<Step>)
    requires Inv(w) && Allowed(w, steps)
    ensures Persists(w.db.tables, Exec(w, steps).db.tables)
  {
    hide Inv, Allowed, Exec;
    var s, t := w.db.tables, Exec(w, steps).db.tables;
    ThereIsFixed(w);
    BasesStay(w, steps);
    forall c | c in s.configs && c in t.configs
      ensures s.configs[c] == t.configs[c]
    {
      RunKeepsConfigFixed(w, steps, c, s.configs[c]);
    }
    forall k | k in s.caches && k in t.caches
      ensures s.caches[k] == t.caches[k]
    {
      RunKeepsCacheFixed(w, steps, k, s.caches[k]);
    }
  }

  lemma {:induction false} BasesStay(w: World, steps: seq<Step>)
    requires Allowed(w, steps)
    ensures Exec(w, steps).db.tables.bases == w.db.tables.bases
    decreases |steps|
  {
    hide Do, Enabled;
    if steps != [] {
      BaseStays(w, steps[0]);
      BasesStay(Do(w, steps[0]), steps[1..]);
    }
  }

  lemma BaseStays(w: World, s: Step)
    requires Enabled(w, s)
    ensures Do(w, s).db.tables.bases == w.db.tables.bases
  {
  }

  lemma {:induction false} PersistsKeepsMeaning(s: Tables, t: Tables, c: nat)
    requires Ok(s) && Ok(t) && Persists(s, t) && c in s.configs && c in t.configs
    ensures ConfigOf(s, c) == ConfigOf(t, c)
    decreases c
  {
    assert ConfigOk(s, c) && ConfigOk(t, c);
    match s.configs[c].parent
    case OfBase(_) =>
    case OfCache(k) =>
      assert CacheOk(s, k) && CacheOk(t, k);
      PersistsKeepsMeaning(s, t, s.caches[k].config);
  }

  /** Whatever happens in between, a config that is there before and after a run
      stands for the same descriptor, and its chain still ends in the same base type. */
  lemma ConfigsKeepTheirMeaning(w: World, steps: seq<Step>, c: nat)
    requires Inv(w) && Allowed(w, steps) && c in w.db.tables.configs && c in Exec(w, steps).db.tables.configs
    ensures var s, t := w.db.tables, Exec(w, steps).db.tables;
      Ok(s) && Ok(t) && ConfigOf(t, c) == ConfigOf(s, c) && OriginBase(t, c) == OriginBase(s, c)
  {
    hide Allowed, Exec;
    var s, t := w.db.tables, Exec(w, steps).db.tables;
    RunKeepsInv(w, steps);
    RunPersists(w, steps);
    PersistsKeepsMeaning(s, t, c);
    ChainReachesBase(t, c);
    ChainReachesBase(s, c);
  }

  // ---- What is in use stays ------------------------------------------------------------

  lemma StepKeepsUse(w: World, s: Step, k: nat)
    requires Enabled(w, s) && k in w.db.uses && s != Unuse(k)
    ensures k in Do(w, s).db.uses
  {
  }

  lemma {:induction false} UsesStay(w: World, steps: seq<Step>, k: nat)
    requires Allowed(w, steps) && k in w.db.uses && Unuse(k) !in steps
    ensures k in Exec(w, steps).db.uses
    decreases |steps|
  {
    hide Do, Enabled;
    if steps != [] {
      StepKeepsUse(w, steps[0], k);
      UsesStay(Do(w, steps[0]), steps[1..], k);
    }
  }

  /** A cache in use stays, with everything below it, until its use is dropped, no
      matter how out of date the collectors' decisions are. */
  lemma UsedCacheStays(w: World, steps: seq<Step>, k: nat)
    requires Inv(w) && Allowed(w, steps) && k in w.db.uses && Unuse(k) !in steps
    ensures var s, t := w.db.tables, Exec(w, steps).db.tables;
      Ok(s) && Ok(t) && k in s.caches && k in t.caches && CacheOf(t, k) == CacheOf(s, k)
  {
    hide Allowed, Exec;
    var s, t := w.db.tables, Exec(w, steps).db.tables;
    RunKeepsInv(w, steps);
    RunPersists(w, steps);
    UsesStay(w, steps, k);
    assert CacheOk(s, k) && CacheOk(t, k);
    PersistsKeepsMeaning(s, t, s.caches[k].config);
  }

  lemma StepKeepsImage(w: World, s: Step, k: nat)
    requires Enabled(w, s) && k in w.db.images && s != Unimage(k)
    ensures k in Do(w, s).db.images
  {
  }

  lemma {:induction false} ImagesStay(w: World, steps: seq<Step>, k: nat)
    requires Allowed(w, steps) && k in w.db.images && Unimage(k) !in steps
    ensures k in Exec(w, steps).db.images
    decreases |steps|
  {
    hide Do, Enabled;
    if steps != [] {
      StepKeepsImage(w, steps[0], k);
      ImagesStay(Do(w, steps[0]), steps[1..], k);
    }
  }

  /** The same for a cache some build's image came from. */
  lemma ImagedCacheStays(w: World, steps: seq<Step>, k: nat)
    requires Inv(w) && Enabled(w, Image(k)) && Allowed(Do(w, Image(k)), steps) && Unimage(k) !in steps
    ensures var s, t := w.db.tables, Exec(Do(w, Image(k)), steps).db.tables;
      Ok(s) && Ok(t) && k in s.caches && k in t.caches && CacheOf(t, k) == CacheOf(s, k)
  {
    hide Allowed, Exec;
    var u := Do(w, Image(k));
    var s, t := w.db.tables, Exec(u, steps).db.tables;
    StepKeepsInv(w, Image(k));
    RunKeepsInv(u, steps);
    RunPersists(u, steps);
    ImagesStay(u, steps, k);
    assert CacheOk(s, k) && CacheOk(t, k);
    PersistsKeepsMeaning(s, t, s.caches[k].config);
  }

  /** And once nobody asks for a cache any more, and no config comes from it, a round takes
      it away; the same for a config without caches. */
  lemma DroppedCacheGoes(w: World, k: nat) returns (steps: seq<Step>)
    requires Inv(w) && w.txns == map[] && k in w.db.tables.caches && !Wanted(w.db, k)
    requires forall c | c in w.db.tables.configs :: w.db.tables.configs[c].parent != OfCache(k)
    ensures |steps| == 3 && steps[..2] == [Unuse(k), Unimage(k)] && steps[2].CollectCaches?
    ensures Allowed(w, steps) && k !in Exec(w, steps).db.tables.caches
  {
    hide Allowed, Exec, Ok;
    var w1 := Do(w, Unuse(k));
    var w2 := Do(w1, Unimage(k));
    var collect := CollectCaches(UnkeptCaches(w2.db));
    FreshCaches(w2.db);
    steps := Nothing(Do(w2, collect));
    steps := Cons(w2, collect, steps);
    steps := Cons(w1, Unimage(k), steps);
    steps := Cons(w, Unuse(k), steps);
  }

  lemma DroppedConfigGoes(w: World, c: nat) returns (steps: seq<Step>)
    requires Inv(w) && w.txns == map[] && c in w.db.tables.configs
    requires forall k | k in w.db.tables.caches :: w.db.tables.caches[k].config != c
    ensures |steps| == 2 && steps[0] == CloseSession(c) && steps[1].CollectConfigs?
    ensures Allowed(w, steps) && c !in Exec(w, steps).db.tables.configs
  {
    hide Allowed, Exec, Ok;
    var w1 := Do(w, CloseSession(c));
    var collect := CollectConfigs(UnkeptConfigs(w1.db));
    FreshConfigs(w1.db);
    steps := Nothing(Do(w1, collect));
    steps := Cons(w1, collect, steps);
    steps := Cons(w, CloseSession(c), steps);
  }

  // ---- What is rolled back ---------------------------------------------------------------

  /** The ids have been given, and nobody has or is about to commit such rows. */
  ghost predicate Void(w: World, configs: set<nat>, caches: set<nat>)
  {
    && (forall c | c in configs :: c < w.db.tables.nextConfig && c !in w.db.tables.configs)
    && (forall k | k in caches :: k < w.db.tables.nextCache && k !in w.db.tables.caches)
    && forall p | p in w.txns :: w.txns[p].configs.Keys !! configs && w.txns[p].caches.Keys !! caches
  }

  lemma StepKeepsVoid(w: World, s: Step, configs: set<nat>, caches: set<nat>)
    requires Enabled(w, s) && Void(w, configs, caches)
    ensures Void(Do(w, s), configs, caches)
  {
  }

  lemma {:induction false} VoidForever(w: World, steps: seq<Step>, configs: set<nat>, caches: set<nat>)
    requires Allowed(w, steps) && Void(w, configs, caches)
    ensures Void(Exec(w, steps), configs, caches)
    decreases |steps|
  {
    hide Do, Enabled, Void;
    if steps != [] {
      StepKeepsVoid(w, steps[0], configs, caches);
      VoidForever(Do(w, steps[0]), steps[1..], configs, caches);
    }
  }

  /** The rows of a transaction that is rolled back never appear, and those it had found
      are no longer locked. */
  lemma RolledBackIsGone(w: World, p: nat, steps: seq<Step>)
    requires Inv(w) && Enabled(w, RollBack(p)) && Allowed(Do(w, RollBack(p)), steps)
    ensures var x, u, t := w.txns[p], Do(w, RollBack(p)), Exec(Do(w, RollBack(p)), steps).db.tables;
      && u.db == w.db && (forall q | q in u.txns :: q != p && q in w.txns && u.txns[q] == w.txns[q])
      && t.configs.Keys !! x.configs.Keys && t.caches.Keys !! x.caches.Keys
  {
    hide Allowed, Exec, Ok;
    var u, x := Do(w, RollBack(p)), w.txns[p];
    OwnRows(w.db.tables, x);
    forall c | c in x.configs
      ensures c < w.db.tables.nextConfig && c !in w.db.tables.configs
    {
      assert OwnConfigOk(w.db.tables, x, c);
    }
    forall k | k in x.caches
      ensures k < w.db.tables.nextCache && k !in w.db.tables.caches
    {
      assert OwnCacheOk(w.db.tables, x, k);
    }
    forall q | q in u.txns
      ensures w.txns[q].configs.Keys !! x.configs.Keys && w.txns[q].caches.Keys !! x.caches.Keys
    {
      assert Apart(w.txns[q], x);
    }
    VoidForever(u, steps, x.configs.Keys, x.caches.Keys);
  }

  // ---- Decisions made earlier ----------------------------------------------------------

  /** A collector decides on the caches in `w`, the run goes on, and then it deletes. A
      needed cache is lost to it exactly when it was kept by nothing then, nothing it
      marked is held now, and a next build input asks for the cache now. */
  lemma LateDeleteLosesIff(w: World, steps: seq<Step>, k: nat)
    requires Inv(w) && Allowed(w, steps) && k in Exec(w, steps).db.tables.caches
    requires Enabled(Exec(w, steps), CollectCaches(UnkeptCaches(w.db)))
    ensures var now, victims := Exec(w, steps), UnkeptCaches(w.db);
      (IsNeeded(now.db, K(k)) && k !in Do(now, CollectCaches(victims)).db.tables.caches) <==>
      (k in victims && !CachesHeld(now.db, victims) && Wanted(now.db, k))
  {
    hide Allowed, Exec, Wanted, IsNeeded, CachesHeld;
    RunKeepsInv(w, steps);
    NeededCacheLostIff(Exec(w, steps).db, UnkeptCaches(w.db), k);
  }

  /** And every cache that is kept by nothing can be lost so: an input asks for it after
      the decision. */
  lemma NeededCacheIsLost(w: World, k: nat) returns (steps: seq<Step>)
    requires Inv(w) && k in UnkeptCaches(w.db) && Enabled(w, CollectCaches(UnkeptCaches(w.db)))
    ensures var victims := UnkeptCaches(w.db);
      && Allowed(w, steps) && Enabled(Exec(w, steps), CollectCaches(victims))
      && IsNeeded(Exec(w, steps).db, K(k))
      && k !in Do(Exec(w, steps), CollectCaches(victims)).db.tables.caches
  {
    hide Allowed, Exec, IsNeeded, Ok, TxnOk, Apart;
    var row := w.db.tables.caches[k];
    var s := Inputs(w.db.inputs + {(row.config, row.version)});
    steps := Nothing(Do(w, s));
    steps := Cons(w, s, steps);
    assert !CachesHeld(w.db, UnkeptCaches(w.db));
    LateDeleteLosesIff(w, steps, k);
  }

  // ---- Two rows for one descriptor -----------------------------------------------------

  lemma Cons(w: World, s: Step, rest: seq<Step>) returns (steps: seq<Step>)
    requires Enabled(w, s) && Allowed(Do(w, s), rest)
    ensures steps == [s] + rest && Allowed(w, steps) && Exec(w, steps) == Exec(Do(w, s), rest)
  {
    steps := [s] + rest;
    assert steps[1..] == rest;
  }

  lemma Nothing(w: World) returns (steps: seq<Step>)
    ensures steps == [] && Allowed(w, steps) && Exec(w, steps) == w
  {
    steps := [];
  }

  const GIT := ForSession(Config(Base("git"), Nil))
  const GIT_ROW := ConfigRow(OfBase(0), Nil)
  const NO_ROWS := Db(Tables(map[0 := "git"], map[], map[], 0, 0), {}, {}, {}, {})

  function Begun(): Txn
  {
    Txn(GIT, [ConfigLink(Nil)], AtBase(0), false, map[], map[], {}, {}, {})
  }

  function Missed(): Txn
  {
    Begun().(missing := true, tried := {GIT_ROW})
  }

  function Made(c: nat): Txn
  {
    Missed().(missing := false, todo := [], at := AtConfig(c), configs := map[c := GIT_ROW])
  }

  /** Two transactions for one descriptor begin and both look in vain. */
  lemma BothMiss(rest: seq<Step>) returns (steps: seq<Step>)
    requires Allowed(World(NO_ROWS, map[0 := Missed(), 1 := Missed()]), rest)
    ensures Allowed(World(NO_ROWS, map[]), steps)
    ensures Exec(World(NO_ROWS, map[]), steps) == Exec(World(NO_ROWS, map[0 := Missed(), 1 := Missed()]), rest)
  {
    hide Allowed, Exec;
    var w0 := World(NO_ROWS, map[]);
    var w1 := World(NO_ROWS, map[0 := Begun()]);
    var w2 := World(NO_ROWS, map[0 := Begun(), 1 := Begun()]);
    var w3 := World(NO_ROWS, map[0 := Missed(), 1 := Begun()]);
    var w4 := World(NO_ROWS, map[0 := Missed(), 1 := Missed()]);
    assert Program(GIT) == [ConfigLink(Nil)] && BaseName(BaseOf(GIT)) == "git";
    assert Do(w0, Begin(0, GIT, 0)) == w1 && Do(w1, Begin(1, GIT, 0)) == w2;
    assert NextConfig(Begun()) == GIT_ROW && View(NO_ROWS.tables, Begun()) == NO_ROWS.tables;
    assert Looked(NO_ROWS, Begun(), None) == Missed() by { assert {} + {GIT_ROW} == {GIT_ROW}; }
    assert Do(w2, Look(0, None)).txns == w3.txns && Do(w3, Look(1, None)).txns == w4.txns;
    steps := Cons(w3, Look(1, None), rest);
    steps := Cons(w2, Look(0, None), steps);
    steps := Cons(w1, Begin(1, GIT, 0), steps);
    steps := Cons(w0, Begin(0, GIT, 0), steps);
  }

  lemma InsertsRow(w: World, p: nat)
    requires p in w.txns && w.txns[p] == Missed()
    ensures var t := w.db.tables;
      && Enabled(w, Insert(p))
      && Do(w, Insert(p)) ==
           World(w.db.(tables := t.(nextConfig := t.nextConfig + 1)), w.txns[p := Made(t.nextConfig)])
  {
    var c, x := w.db.tables.nextConfig, Missed();
    assert NextConfig(x) == GIT_ROW && x.todo[1..] == [];
    assert x.configs[c := GIT_ROW] == map[c := GIT_ROW];
  }

  lemma FirstCommits(w: World)
    requires w.txns == map[0 := Made(0), 1 := Made(1)] && w.db.tables.configs == map[]
    ensures Enabled(w, Commit(0))
    ensures var u := Do(w, Commit(0));
      && u.db.tables.configs == map[0 := GIT_ROW] && u.txns.Keys == {1}
      && u.txns[1].configs == map[1 := GIT_ROW] && u.txns[1].todo == []
  {
  }

  lemma SecondCommits(w: World)
    requires w.db.tables.configs == map[0 := GIT_ROW] && w.txns.Keys == {1}
    requires w.txns[1].configs == map[1 := GIT_ROW] && w.txns[1].todo == []
    ensures Enabled(w, Commit(1)) && Do(w, Commit(1)).db.tables.configs == map[0 := GIT_ROW, 1 := GIT_ROW]
  {
  }

  lemma BothCommit(w: World) returns (steps: seq<Step>, u: World)
    requires w.txns == map[0 := Made(0), 1 := Made(1)] && w.db.tables.configs == map[]
    ensures Allowed(w, steps) && Exec(w, steps) == u && u.db.tables.configs == map[0 := GIT_ROW, 1 := GIT_ROW]
  {
    hide Allowed, Exec, Do, Enabled;
    FirstCommits(w);
    var w1 := Do(w, Commit(0));
    SecondCommits(w1);
    u := Do(w1, Commit(1));
    steps := Nothing(u);
    steps := Cons(w1, Commit(1), steps);
    steps := Cons(w, Commit(0), steps);
  }

  lemma BothInsert() returns (steps: seq<Step>, u: World)
    ensures Allowed(World(NO_ROWS, map[0 := Missed(), 1 := Missed()]), steps)
    ensures Exec(World(NO_ROWS, map[0 := Missed(), 1 := Missed()]), steps) == u
    ensures u.db.tables.configs == map[0 := GIT_ROW, 1 := GIT_ROW]
  {
    hide Allowed, Exec, Do, Enabled;
    var w0 := World(NO_ROWS, map[0 := Missed(), 1 := Missed()]);
    InsertsRow(w0, 0);
    var w1 := Do(w0, Insert(0));
    InsertsRow(w1, 1);
    var w2 := Do(w1, Insert(1));
    assert w2.txns == map[0 := Made(0), 1 := Made(1)];
    steps, u := BothCommit(w2);
    steps := Cons(w1, Insert(1), steps);
    steps := Cons(w0, Insert(0), steps);
  }

  /** And it happens: a run that ends with two equal rows, which stand for the same
      descriptor, and no key objects. */
  lemma TwoRowsForOneDescriptor() returns (steps: seq<Step>)
    ensures Allowed(World(NO_ROWS, map[]), steps) && Inv(World(NO_ROWS, map[]))
    ensures var t := Exec(World(NO_ROWS, map[]), steps).db.tables;
      Ok(t) && !Unique(t.configs) && Reaches(t, 0, GIT) && Reaches(t, 1, GIT)
  {
    hide Allowed, Exec;
    IdleIsOk(NO_ROWS);
    var second, u := BothInsert();
    steps := BothMiss(second);
    var t := u.db.tables;
    RunKeepsInv(World(NO_ROWS, map[]), steps);
    BasesStay(World(NO_ROWS, map[]), steps);
    assert t.configs[0] == t.configs[1] == GIT_ROW;
    assert ConfigOk(t, 0) && ConfigOk(t, 1);
  }
}
