/**
 * What every run of find-or-create transactions, users and collectors keeps, and the
 * one thing it does not: config rows stay unique only as long as no transaction
 * commits a row that another one committed after it was looked up in vain.
 */
module TransactionRuns {
  import opened Options
  import opened ResourceTables
  import opened ResourceStore
  import opened ResourceGc
  import opened Transactions

  lemma MeaningKept(s: Tables, t: Tables, at: At)
    requires Ok(s) && Ok(t) && Within(s, t) && Sees(s, at)
    ensures Sees(t, at) && Meaning(s, at) == Meaning(t, at)
  {
    hide Ok;
    match at
    case AtBase(_) =>
    case AtConfig(c) => WithinKeepsMeaning(s, t, c);
    case AtCache(k) => WithinKeepsCacheMeaning(s, t, k);
  }

  lemma AtIsSeen(t: Tables, x: Txn)
    requires AtOk(t, x)
    ensures Sees(View(t, x), x.at)
  {
  }

  /** A transaction is not disturbed by what others add or delete. */
  lemma TxnCarries(t: Tables, u: Tables, x: Txn, y: Txn)
    requires Ok(t) && Ok(u) && TxnOk(t, x) && Structure(u, y) && y == x.(rivals := y.rivals)
    requires Within(View(t, x), View(u, y)) || Within(View(u, y), View(t, x))
    ensures TxnOk(u, y)
  {
    hide Ok, RowsOk, TriedOk, TodoOk, Fold;
    ViewIsOk(t, x);
    ViewIsOk(u, y);
    AtIsSeen(t, x);
    AtIsSeen(u, y);
    if Within(View(t, x), View(u, y)) {
      MeaningKept(View(t, x), View(u, y), x.at);
    } else {
      MeaningKept(View(u, y), View(t, x), x.at);
    }
  }

  // ---- Begin and look ------------------------------------------------------------

  lemma BeginIsOk(t: Tables, goal: Goal, b: nat)
    requires Ok(t) && FindsBase(t, BaseName(BaseOf(goal)), Some(b))
    ensures TxnOk(t, Txn(goal, Program(goal), AtBase(b), false, map[], map[], {}, {}, {}))
  {
    ProgramMeans(goal);
    ProgramAlternates(goal);
  }

  /** The next row stands for the next level of the descriptor. */
  lemma FoundConfigMeans(v: Tables, at: At, source: Json, c: nat)
    requires Ok(v) && Sees(v, at) && !at.AtConfig? && c in v.configs
    requires v.configs[c] == ConfigRow(if at.AtBase? then OfBase(at.b) else OfCache(at.k), source)
    ensures Meaning(v, AtConfig(c)) == Extend(Meaning(v, at), ConfigLink(source))
  {
    assert ConfigOk(v, c);
  }

  lemma FoundCacheMeans(v: Tables, c: nat, version: Json, params: Json, k: nat)
    requires Ok(v) && c in v.configs && k in v.caches && v.caches[k] == CacheRow(c, version, params)
    ensures Meaning(v, AtCache(k)) == Extend(Meaning(v, AtConfig(c)), CacheLink(version, params))
  {
    assert CacheOk(v, k);
  }

  lemma LookMissesIsOk(db: Db, x: Txn)
    requires Ok(db.tables) && TxnOk(db.tables, x) && !x.missing && (OnConfig(x) || OnCache(x))
    requires OnConfig(x) ==> FindsConfigRow(View(db.tables, x), NextConfig(x), None)
    requires OnCache(x) ==> FindsCacheRow(View(db.tables, x), NextCache(x), None)
    ensures TxnOk(db.tables, Looked(db, x, None))
  {
    var t, y := db.tables, Looked(db, x, None);
    OwnIsNew(t, x);
    MissedRows(t, x, y);
    assert TriedOk(t, y) by {
      assert forall c | c in x.configs :: c in View(t, x).configs && View(t, x).configs[c] == x.configs[c];
      assert forall c | c in t.configs :: c in View(t, x).configs && View(t, x).configs[c] == t.configs[c];
    }
    assert TodoOk(y) by {
      assert forall k | k in x.caches :: k in View(t, x).caches && View(t, x).caches[k] == x.caches[k];
    }
    assert View(t, y) == View(t, x);
  }

  lemma MissedRows(t: Tables, x: Txn, y: Txn)
    requires RowsOk(t, x) && y == x.(missing := y.missing, tried := y.tried) && x.tried <= y.tried
    ensures RowsOk(t, y)
  {
    hide Unique;
    forall c | c in y.configs
      ensures OwnConfigOk(t, y, c)
    {
      assert OwnConfigOk(t, x, c);
    }
    forall k | k in y.caches
      ensures OwnCacheOk(t, y, k)
    {
      assert OwnCacheOk(t, x, k);
    }
  }

  lemma LookFindsIsOk(db: Db, x: Txn, id: nat)
    requires Ok(db.tables) && TxnOk(db.tables, x) && !x.missing && (OnConfig(x) || OnCache(x))
    requires OnConfig(x) ==> FindsConfigRow(View(db.tables, x), NextConfig(x), Some(id))
    requires OnCache(x) ==> FindsCacheRow(View(db.tables, x), NextCache(x), Some(id))
    ensures TxnOk(db.tables, Looked(db, x, Some(id)))
  {
    hide Ok, Fold, TriedOk;
    var t, y := db.tables, Looked(db, x, Some(id));
    HeldRows(t, x, y);
    ViewIsOk(t, x);
    AtIsSeen(t, x);
    assert View(t, y) == View(t, x);
    if OnConfig(x) {
      FoundConfigMeans(View(t, x), x.at, x.todo[0].source, id);
    } else {
      FoundCacheMeans(View(t, x), x.at.c, x.todo[0].version, x.todo[0].params, id);
    }
    FoldStep(Meaning(View(t, x), x.at), x.todo);
    StillTried(t, x, y);
  }

  lemma FoldStep(part: Part, links: seq<Link>)
    requires links != []
    ensures Fold(part, links) == Fold(Extend(part, links[0]), links[1..])
  {
  }

  lemma StillTried(t: Tables, x: Txn, y: Txn)
    requires TriedOk(t, x) && !x.missing && !y.missing
    requires y.tried == x.tried && y.rivals == x.rivals && y.configs == x.configs
    ensures TriedOk(t, y)
  {
  }

  lemma HeldRows(t: Tables, x: Txn, y: Txn)
    requires RowsOk(t, x) && y == x.(at := y.at, todo := y.todo, held := y.held) && x.held <= y.held
    requires forall r | r in y.held && r !in x.held :: if r.C? then r.id in t.configs else r.id in t.caches
    ensures RowsOk(t, y)
  {
    hide Unique;
    forall c | c in y.configs
      ensures OwnConfigOk(t, y, c)
    {
      assert OwnConfigOk(t, x, c);
    }
    forall k | k in y.caches
      ensures OwnCacheOk(t, y, k)
    {
      assert OwnCacheOk(t, x, k);
    }
  }

  // ---- Insert --------------------------------------------------------------------

  /** Only the sequences moved. */
  ghost predicate Counted(t: Tables, u: Tables)
  {
    && u == t.(nextConfig := u.nextConfig, nextCache := u.nextCache)
    && t.nextConfig <= u.nextConfig && t.nextCache <= u.nextCache
  }

  lemma CountedIsOk(t: Tables, u: Tables)
    requires Ok(t) && Counted(t, u)
    ensures Ok(u)
  {
    hide Unique;
    forall c | c in u.configs
      ensures ConfigOk(u, c)
    {
      assert ConfigOk(t, c);
    }
    forall k | k in u.caches
      ensures CacheOk(u, k)
    {
      assert CacheOk(t, k);
    }
  }

  lemma CountedRows(t: Tables, u: Tables, x: Txn)
    requires RowsOk(t, x) && Counted(t, u)
    ensures RowsOk(u, x)
  {
    hide Unique;
    forall c | c in x.configs
      ensures OwnConfigOk(u, x, c)
    {
      assert OwnConfigOk(t, x, c);
    }
    forall k | k in x.caches
      ensures OwnCacheOk(u, x, k)
    {
      assert OwnCacheOk(t, x, k);
    }
  }

  lemma CountedCarries(t: Tables, u: Tables, x: Txn)
    requires Ok(t) && Counted(t, u) && TxnOk(t, x)
    ensures Ok(u) && TxnOk(u, x)
  {
    hide Ok, RowsOk, TodoOk;
    CountedIsOk(t, u);
    CountedRows(t, u, x);
    TxnCarries(t, u, x, x);
  }

  function WithConfig(t: Tables, x: Txn): Txn
    requires OnConfig(x)
  {
    x.(at := AtConfig(t.nextConfig), todo := x.todo[1..], missing := false,
       configs := x.configs[t.nextConfig := NextConfig(x)])
  }

  function WithCache(t: Tables, x: Txn): Txn
    requires OnCache(x)
  {
    x.(at := AtCache(t.nextCache), todo := x.todo[1..], missing := false,
       caches := x.caches[t.nextCache := NextCache(x)])
  }

  lemma InsertConfigRows(t: Tables, x: Txn)
    requires Ok(t) && Structure(t, x) && x.missing && OnConfig(x)
    ensures RowsOk(t.(nextConfig := t.nextConfig + 1), WithConfig(t, x)) && t.nextConfig !in x.configs
  {
    var u, y := t.(nextConfig := t.nextConfig + 1), WithConfig(t, x);
    hide Unique;
    assert t.nextConfig in x.configs ==> OwnConfigOk(t, x, t.nextConfig);
    assert t.nextConfig in t.configs ==> ConfigOk(t, t.nextConfig);
    AddedIsUniqueIffNew(x.configs, t.nextConfig, NextConfig(x));
    if x.at.AtCache? { ParentIsOlder(t, x, x.at.k); }
    forall c | c in y.configs
      ensures OwnConfigOk(u, y, c)
    {
      if c != t.nextConfig { assert OwnConfigOk(t, x, c); }
    }
    forall k | k in y.caches
      ensures OwnCacheOk(u, y, k)
    {
      assert OwnCacheOk(t, x, k);
    }
  }

  lemma ParentIsOlder(t: Tables, x: Txn, k: nat)
    requires Ok(t) && RowsOk(t, x) && (k in x.caches || (K(k) in x.held && k in t.caches))
    ensures (if k in x.caches then x.caches[k] else t.caches[k]).config < t.nextConfig
  {
    if k in x.caches {
      assert OwnCacheOk(t, x, k);
      var c := x.caches[k].config;
      if c in x.configs { assert OwnConfigOk(t, x, c); } else { assert ConfigOk(t, c); }
    } else {
      assert CacheOk(t, k);
      assert ConfigOk(t, t.caches[k].config);
    }
  }

  lemma InsertConfigIsFine(t: Tables, x: Txn)
    requires Ok(t) && TxnOk(t, x) && x.missing && OnConfig(x)
    ensures var u := t.(nextConfig := t.nextConfig + 1); Ok(u) && TxnOk(u, WithConfig(t, x))
  {
    hide Ok, Fold, RowsOk, Within, Meaning;
    var u, y := t.(nextConfig := t.nextConfig + 1), WithConfig(t, x);
    CountedIsOk(t, u);
    InsertConfigRows(t, x);
    ViewIsOk(t, x);
    ViewIsOk(u, y);
    AtIsSeen(t, x);
    NewConfigInView(t, x);
    MeaningKept(View(t, x), View(u, y), x.at);
    FoundConfigMeans(View(u, y), x.at, x.todo[0].source, t.nextConfig);
    FoldStep(Meaning(View(t, x), x.at), x.todo);
    InsertedTried(t, x);
  }

  lemma NewConfigInView(t: Tables, x: Txn)
    requires Ok(t) && RowsOk(t, x) && OnConfig(x)
    ensures Within(View(t, x), View(t.(nextConfig := t.nextConfig + 1), WithConfig(t, x)))
  {
    hide Ok, RowsOk;
    Newer(t, x, t.nextConfig);
  }

  lemma NewCacheInView(t: Tables, x: Txn)
    requires Ok(t) && RowsOk(t, x) && OnCache(x)
    ensures Within(View(t, x), View(t.(nextCache := t.nextCache + 1), WithCache(t, x)))
  {
    hide Ok, RowsOk;
    NewerCache(t, x, t.nextCache);
  }

  lemma Newer(t: Tables, x: Txn, c: nat)
    requires Ok(t) && RowsOk(t, x) && c >= t.nextConfig
    ensures c !in t.configs && c !in x.configs
  {
    assert c in t.configs ==> ConfigOk(t, c);
    assert c in x.configs ==> OwnConfigOk(t, x, c);
  }

  lemma NewerCache(t: Tables, x: Txn, k: nat)
    requires Ok(t) && RowsOk(t, x) && k >= t.nextCache
    ensures k !in t.caches && k !in x.caches
  {
    assert k in t.caches ==> CacheOk(t, k);
    assert k in x.caches ==> OwnCacheOk(t, x, k);
  }

  lemma InsertedTried(t: Tables, x: Txn)
    requires TriedOk(t, x) && x.missing && OnConfig(x) && t.nextConfig !in x.configs
    ensures TriedOk(t.(nextConfig := t.nextConfig + 1), WithConfig(t, x))
  {
    var y := WithConfig(t, x);
    forall row | row in y.tried
      ensures row in y.configs.Values
    {
      if row == NextConfig(x) {
        assert t.nextConfig in y.configs && y.configs[t.nextConfig] == row;
      } else {
        var c :| c in x.configs && x.configs[c] == row;
        assert c in y.configs && y.configs[c] == row;
      }
    }
  }

  lemma InsertCacheRows(t: Tables, x: Txn)
    requires Ok(t) && Structure(t, x) && x.missing && OnCache(x) && FindsCacheRow(t, NextCache(x), None)
    ensures RowsOk(t.(nextCache := t.nextCache + 1), WithCache(t, x))
  {
    var u, y := t.(nextCache := t.nextCache + 1), WithCache(t, x);
    hide Unique;
    NewerCache(t, x, t.nextCache);
    AddedIsUniqueIffNew(x.caches, t.nextCache, NextCache(x));
    forall c | c in y.configs
      ensures OwnConfigOk(u, y, c)
    {
      assert OwnConfigOk(t, x, c);
    }
    forall k | k in y.caches
      ensures OwnCacheOk(u, y, k)
    {
      if k != t.nextCache { assert OwnCacheOk(t, x, k); }
    }
  }

  lemma InsertCacheIsFine(t: Tables, x: Txn)
    requires Ok(t) && TxnOk(t, x) && x.missing && OnCache(x) && FindsCacheRow(t, NextCache(x), None)
    ensures var u := t.(nextCache := t.nextCache + 1); Ok(u) && TxnOk(u, WithCache(t, x))
  {
    hide Ok, Fold, RowsOk, Within, Meaning;
    var u, y := t.(nextCache := t.nextCache + 1), WithCache(t, x);
    CountedIsOk(t, u);
    InsertCacheRows(t, x);
    ViewIsOk(t, x);
    ViewIsOk(u, y);
    AtIsSeen(t, x);
    NewCacheInView(t, x);
    MeaningKept(View(t, x), View(u, y), x.at);
    FoundCacheMeans(View(u, y), x.at.c, x.todo[0].version, x.todo[0].params, t.nextCache);
    FoldStep(Meaning(View(t, x), x.at), x.todo);
  }

  // ---- Commit --------------------------------------------------------------------

  lemma CommittedRows(t: Tables, x: Txn, y: Txn)
    requires RowsOk(t, x) && RowsOk(t, y) && Apart(y, x)
    ensures RowsOk(View(t, x), Seen(y, x))
  {
    hide Unique;
    var u, z := View(t, x), Seen(y, x);
    OwnIsNew(t, x);
    forall c | c in z.configs
      ensures OwnConfigOk(u, z, c)
    {
      assert OwnConfigOk(t, y, c);
    }
    forall k | k in z.caches
      ensures OwnCacheOk(u, z, k)
    {
      assert OwnCacheOk(t, y, k);
      assert forall j | j in x.caches :: x.caches[j] != y.caches[k];
    }
  }

  lemma CommittedTried(t: Tables, x: Txn, y: Txn)
    requires RowsOk(t, x) && TriedOk(t, y) && Apart(y, x)
    ensures TriedOk(View(t, x), Seen(y, x))
  {
    OwnIsNew(t, x);
    forall c | c in x.configs
      ensures c < t.nextConfig
    {
      assert OwnConfigOk(t, x, c);
    }
  }

  /** Another transaction carries on after a commit. */
  lemma CommitCarries(t: Tables, x: Txn, y: Txn)
    requires Ok(t) && RowsOk(t, x) && TxnOk(t, y) && Apart(y, x)
    ensures Ok(View(t, x)) && TxnOk(View(t, x), Seen(y, x))
  {
    hide Ok, RowsOk, TriedOk, TodoOk, Fold;
    var u, z := View(t, x), Seen(y, x);
    ViewIsOk(t, x);
    CommittedRows(t, x, y);
    CommittedTried(t, x, y);
    OwnIsNew(t, y);
    OwnIsNew(t, x);
    SameTodo(y, z);
    assert Within(View(t, y), View(u, z));
    TxnCarries(t, u, y, z);
  }

  lemma SameTodo(y: Txn, z: Txn)
    requires TodoOk(y) && z == y.(rivals := z.rivals)
    ensures TodoOk(z)
  {
  }

  // ---- Delete --------------------------------------------------------------------

  /** Rows were deleted, none of them locked. */
  ghost predicate Cut(t: Tables, u: Tables, x: Txn)
  {
    && u == t.(configs := u.configs, caches := u.caches) && Within(u, t)
    && (forall r | r in x.held :: if r.C? then r.id in u.configs else r.id in u.caches)
  }

  lemma CutRows(t: Tables, u: Tables, x: Txn)
    requires RowsOk(t, x) && Cut(t, u, x)
    ensures RowsOk(u, x)
  {
    hide Unique;
    forall c | c in x.configs
      ensures OwnConfigOk(u, x, c)
    {
      assert OwnConfigOk(t, x, c);
    }
    forall k | k in x.caches
      ensures OwnCacheOk(u, x, k)
    {
      assert OwnCacheOk(t, x, k);
    }
  }

  lemma CutCarries(t: Tables, u: Tables, x: Txn)
    requires Ok(t) && Ok(u) && TxnOk(t, x) && Cut(t, u, x)
    ensures TxnOk(u, x)
  {
    hide Ok, RowsOk, TodoOk, Fold;
    CutRows(t, u, x);
    OwnIsNew(t, x);
    assert Within(View(u, x), View(t, x));
    TxnCarries(t, u, x, x);
  }

  // ---- Every step ------------------------------------------------------------------

  lemma InsertedApart(w: World, p: nat, q: nat)
    requires Inv(w) && p in w.txns && q in w.txns && p != q && w.txns[p].missing && !Blocked(w, p)
    ensures OnConfig(w.txns[p]) ==>
      Apart(WithConfig(w.db.tables, w.txns[p]), w.txns[q]) && Apart(w.txns[q], WithConfig(w.db.tables, w.txns[p]))
    ensures OnCache(w.txns[p]) ==>
      Apart(WithCache(w.db.tables, w.txns[p]), w.txns[q]) && Apart(w.txns[q], WithCache(w.db.tables, w.txns[p]))
  {
    hide Ok, DbOk, TxnOk;
    var t, x, y := w.db.tables, w.txns[p], w.txns[q];
    DbTables(w.db);
    assert TxnOk(t, y) && Apart(x, y) && Apart(y, x);
    OwnRows(t, y);
    Newer(t, y, t.nextConfig);
    RivalsAreOlder(t, y);
    NewerCache(t, y, t.nextCache);
  }

  lemma RivalsAreOlder(t: Tables, x: Txn)
    requires TriedOk(t, x)
    ensures t.nextConfig !in x.rivals
  {
  }

  lemma InsertKeepsInv(w: World, p: nat)
    requires Inv(w) && Enabled(w, Insert(p))
    ensures Inv(Do(w, Insert(p)))
  {
    hide Ok, TxnOk, Apart, Blocked;
    var t, x := w.db.tables, w.txns[p];
    assert TxnOk(t, x);
    AlternatesMeans(t, x);
    var u := Do(w, Insert(p)).db.tables;
    forall q | q in w.txns
      ensures Ok(u) && TxnOk(u, w.txns[q])
    {
      CountedCarries(t, u, w.txns[q]);
    }
    forall q | q in w.txns && q != p { InsertedApart(w, p, q); }
    if OnConfig(x) {
      InsertConfigIsFine(t, x);
    } else if FindsCacheRow(t, NextCache(x), None) {
      InsertCacheIsFine(t, x);
    }
  }

  lemma AlternatesMeans(t: Tables, x: Txn)
    requires Ok(t) && TxnOk(t, x) && x.missing
    ensures OnConfig(x) || OnCache(x)
  {
    hide Ok, RowsOk, TriedOk, Fold, AtOk;
  }

  lemma LookKeepsInv(w: World, p: nat, r: Option<nat>)
    requires Inv(w) && Enabled(w, Look(p, r))
    ensures Inv(Do(w, Look(p, r)))
  {
    hide Ok, TxnOk, DbOk;
    var x := w.txns[p];
    DbTables(w.db);
    assert TxnOk(w.db.tables, x);
    if r.None? { LookMissesIsOk(w.db, x); } else { LookFindsIsOk(w.db, x, r.value); }
  }

  lemma DbTables(db: Db)
    requires DbOk(db)
    ensures Ok(db.tables)
  {
  }

  lemma CommitDbOk(w: World, p: nat)
    requires DbOk(w.db) && p in w.txns && TxnOk(w.db.tables, w.txns[p])
    ensures DbOk(AfterCommit(w, p).db)
  {
    hide Ok, RowsOk, TriedOk, Fold, TodoOk;
    ViewIsOk(w.db.tables, w.txns[p]);
    AtIsSeen(w.db.tables, w.txns[p]);
  }

  lemma CommitApart(x: Txn, y: Txn, z: Txn)
    requires Apart(y, z) && Apart(x, z)
    ensures Apart(Seen(y, x), Seen(z, x))
  {
  }

  lemma CommitKeepsInv(w: World, p: nat)
    requires Inv(w) && Enabled(w, Commit(p))
    ensures Inv(Do(w, Commit(p)))
  {
    hide Ok, DbOk, TxnOk, Apart;
    var t, x, w' := w.db.tables, w.txns[p], Do(w, Commit(p));
    DbTables(w.db);
    assert TxnOk(t, x);
    CommitDbOk(w, p);
    DbTables(w'.db);
    OwnRows(t, x);
    forall q | q in w'.txns
      ensures TxnOk(w'.db.tables, w'.txns[q])
    {
      assert TxnOk(t, w.txns[q]) && Apart(w.txns[q], x);
      CommitCarries(t, x, w.txns[q]);
    }
    forall q, r | q in w'.txns && r in w'.txns && q != r
      ensures Apart(w'.txns[q], w'.txns[r])
    {
      CommitApart(x, w.txns[q], w.txns[r]);
    }
  }

  lemma OwnRows(t: Tables, x: Txn)
    requires Ok(t) && TxnOk(t, x)
    ensures RowsOk(t, x) && AtOk(t, x) && TriedOk(t, x) && TodoOk(x)
  {
    hide Ok, RowsOk, TriedOk, Fold, AtOk, TodoOk;
  }

  lemma CollectKeepsInv(w: World, s: Step)
    requires Inv(w) && Enabled(w, s) && (s.CollectConfigs? || s.CollectCaches?)
    ensures Inv(Do(w, s))
  {
    hide Ok, TxnOk;
    var u := Do(w, s).db;
    if s.CollectConfigs? { DeleteConfigsIsOk(w.db, s.victims); } else { DeleteCachesIsOk(w.db, s.victims); }
    forall p | p in w.txns
      ensures TxnOk(u.tables, w.txns[p])
    {
      NothingHeldIsCut(w, s, p);
      CutCarries(w.db.tables, u.tables, w.txns[p]);
    }
  }

  lemma NothingHeldIsCut(w: World, s: Step, p: nat)
    requires Inv(w) && Enabled(w, s) && (s.CollectConfigs? || s.CollectCaches?) && p in w.txns
    requires Within(Do(w, s).db.tables, w.db.tables)
    ensures Cut(w.db.tables, Do(w, s).db.tables, w.txns[p])
  {
    hide Ok, TxnOk, ConfigsHeld, CachesHeld, Within;
    assert TxnOk(w.db.tables, w.txns[p]);
    OwnRows(w.db.tables, w.txns[p]);
    HeldAreThere(w.db.tables, w.txns[p]);
  }

  lemma HeldAreThere(t: Tables, x: Txn)
    requires RowsOk(t, x)
    ensures forall r | r in x.held :: if r.C? then r.id in t.configs else r.id in t.caches
  {
  }

  lemma BeginKeepsInv(w: World, p: nat, goal: Goal, b: nat)
    requires Inv(w) && Enabled(w, Begin(p, goal, b))
    ensures Inv(Do(w, Begin(p, goal, b)))
  {
    hide Ok, DbOk, TxnOk, FindsBase;
    DbTables(w.db);
    BeginIsOk(w.db.tables, goal, b);
  }

  lemma OtherKeepsInv(w: World, s: Step)
    requires Inv(w) && Enabled(w, s)
    requires s.RollBack? || s.Unuse? || s.CloseSession? || s.Image? || s.Unimage? || s.Inputs?
    ensures Inv(Do(w, s))
  {
    hide Ok, TxnOk, Apart;
  }

  lemma StepKeepsInv(w: World, s: Step)
    requires Inv(w) && Enabled(w, s)
    ensures Inv(Do(w, s))
  {
    hide Inv, Do, Enabled;
    match s
    case Begin(p, goal, b) => BeginKeepsInv(w, p, goal, b);
    case Look(p, r) => LookKeepsInv(w, p, r);
    case Insert(p) => InsertKeepsInv(w, p);
    case Commit(p) => CommitKeepsInv(w, p);
    case CollectConfigs(_) => CollectKeepsInv(w, s);
    case CollectCaches(_) => CollectKeepsInv(w, s);
    case _ => OtherKeepsInv(w, s);
  }

  lemma {:induction false} RunKeepsInv(w: World, steps: seq<Step>)
    requires Inv(w) && Allowed(w, steps)
    ensures Inv(Exec(w, steps))
    decreases |steps|
  {
    hide Inv, Do, Enabled;
    if steps != [] {
      StepKeepsInv(w, steps[0]);
      RunKeepsInv(Do(w, steps[0]), steps[1..]);
    }
  }
}
