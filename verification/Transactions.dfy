/**
 * Find-or-create statement by statement, under read committed isolation: any number of
 * transactions look rows up, insert what they did not find and commit, among
 * collectors and users of the tables. A transaction sees what is committed and what
 * it inserted itself; rows it found are locked against deletion until it ends.
 */
module Transactions {
  import opened Options
  import opened ResourceTables
  import opened ResourceStore
  import opened ResourceGc

  // ---- What a transaction works through -----------------------------------------

  /** One level of a descriptor, bottom up. */
  datatype Link = ConfigLink(source: Json) | CacheLink(version: Json, params: Json)

  function Links(d: Config): seq<Link>
    decreases d
  {
    match d.origin
    case Base(_) => [ConfigLink(d.source)]
    case Custom(cache) => CacheLinks(cache) + [ConfigLink(d.source)]
  }

  function CacheLinks(d: Cache): seq<Link>
    decreases d
  {
    Links(d.config) + [CacheLink(d.version, ParamsHash(d.params))]
  }

  function Program(goal: Goal): seq<Link>
  {
    match goal
    case ForSession(d) => Links(d)
    case ForUse(d) => CacheLinks(d)
  }

  /** A descriptor up to some level. */
  datatype Part = PBase(name: string) | PConfig(config: Config) | PCache(cache: Cache)

  function Extend(part: Part, link: Link): Part
  {
    match link
    case ConfigLink(source) =>
      if part.PBase? then PConfig(Config(Base(part.name), source))
      else if part.PCache? then PConfig(Config(Custom(part.cache), source)) else part
    case CacheLink(version, params) => if part.PConfig? then PCache(Cache(part.config, version, params)) else part
  }

  function Fold(part: Part, links: seq<Link>): Part
    decreases |links|
  {
    if links == [] then part else Fold(Extend(part, links[0]), links[1..])
  }

  function GoalPart(goal: Goal): Part
  {
    match goal
    case ForSession(d) => PConfig(Normal(d))
    case ForUse(d) => PCache(NormalCache(d))
  }

  lemma {:induction false} FoldSnoc(part: Part, links: seq<Link>, link: Link)
    ensures Fold(part, links + [link]) == Extend(Fold(part, links), link)
    decreases |links|
  {
    if links == [] {
      assert links + [link] == [link];
      assert [link][1..] == [];
    } else {
      FoldSnoc(Extend(part, links[0]), links[1..], link);
      assert (links + [link])[1..] == links[1..] + [link];
    }
  }

  lemma {:induction false} LinksMean(d: Config)
    ensures Fold(PBase(BaseName(d)), Links(d)) == PConfig(Normal(d))
    decreases d
  {
    match d.origin
    case Base(name) => FoldSnoc(PBase(name), [], ConfigLink(d.source)); assert [] + Links(d) == Links(d);
    case Custom(cache) =>
      CacheLinksMean(cache);
      FoldSnoc(PBase(BaseName(d)), CacheLinks(cache), ConfigLink(d.source));
  }

  lemma {:induction false} CacheLinksMean(d: Cache)
    ensures Fold(PBase(BaseName(d.config)), CacheLinks(d)) == PCache(NormalCache(d))
    decreases d
  {
    LinksMean(d.config);
    FoldSnoc(PBase(BaseName(d.config)), Links(d.config), CacheLink(d.version, ParamsHash(d.params)));
  }

  /** Worked through from its base type, the program of a goal yields the goal. */
  lemma ProgramMeans(goal: Goal)
    ensures Fold(PBase(BaseName(BaseOf(goal))), Program(goal)) == GoalPart(goal)
  {
    match goal
    case ForSession(d) => LinksMean(d);
    case ForUse(d) => CacheLinksMean(d);
  }

  /** Config and cache levels take turns, and stored params are never nil. */
  predicate Alternates(onConfig: bool, links: seq<Link>)
    decreases |links|
  {
    links == [] ||
    (&& (links[0].CacheLink? <==> onConfig)
     && (links[0].CacheLink? ==> !links[0].params.Nil?)
     && Alternates(!onConfig, links[1..]))
  }

  lemma {:induction false} AlternatesSnoc(onConfig: bool, links: seq<Link>, link: Link)
    requires Alternates(onConfig, links) && (link.CacheLink? ==> !link.params.Nil?)
    requires link.CacheLink? <==> (onConfig <==> |links| % 2 == 0)
    ensures Alternates(onConfig, links + [link])
    decreases |links|
  {
    if links == [] {
      assert (links + [link])[1..] == [];
    } else {
      AlternatesSnoc(!onConfig, links[1..], link);
      assert (links + [link])[1..] == links[1..] + [link];
    }
  }

  lemma {:induction false} LinksAlternate(d: Config)
    ensures Alternates(false, Links(d)) && |Links(d)| % 2 == 1
    decreases d
  {
    match d.origin
    case Base(_) => assert Links(d)[1..] == [];
    case Custom(cache) =>
      CacheLinksAlternate(cache);
      AlternatesSnoc(false, CacheLinks(cache), ConfigLink(d.source));
  }

  lemma {:induction false} CacheLinksAlternate(d: Cache)
    ensures Alternates(false, CacheLinks(d)) && |CacheLinks(d)| % 2 == 0
    decreases d
  {
    LinksAlternate(d.config);
    AlternatesSnoc(false, Links(d.config), CacheLink(d.version, ParamsHash(d.params)));
  }

  lemma ProgramAlternates(goal: Goal)
    ensures Alternates(false, Program(goal))
  {
    match goal
    case ForSession(d) => LinksAlternate(d);
    case ForUse(d) => CacheLinksAlternate(d);
  }

  // ---- State -----------------------------------------------------------------------

  /** The row reached so far. */
  datatype At = AtBase(b: nat) | AtConfig(c: nat) | AtCache(k: nat)

  /** `missing`: the lookup of the next level came back empty. `configs` and `caches`
      are inserted and not committed, `held` is locked. `tried` are the config rows
      looked up in vain, `rivals` the ids of equal rows that others committed since. */
  datatype Txn = Txn(goal: Goal, todo: seq<Link>, at: At, missing: bool,
                     configs: map<nat, ConfigRow>, caches: map<nat, CacheRow>, held: set<Row>,
                     tried: set<ConfigRow>, rivals: set<nat>)

  datatype World = World(db: Db, txns: map<nat, Txn>)

  datatype Step =
    | Begin(p: nat, goal: Goal, b: nat)
    | Look(p: nat, r: Option<nat>)
    | Insert(p: nat)
    | Commit(p: nat)
    | RollBack(p: nat)
    | Unuse(k: nat) | CloseSession(c: nat)
    | Image(k: nat) | Unimage(k: nat)
    | Inputs(pairs: set<(nat, Json)>)
    | CollectConfigs(victims: set<nat>)
    | CollectCaches(victims: set<nat>)

  /** What a transaction sees. */
  function View(t: Tables, x: Txn): Tables
  {
    t.(configs := t.configs + x.configs, caches := t.caches + x.caches)
  }

  function NextConfig(x: Txn): ConfigRow
    requires x.todo != [] && x.todo[0].ConfigLink? && !x.at.AtConfig?
  {
    ConfigRow(if x.at.AtBase? then OfBase(x.at.b) else OfCache(x.at.k), x.todo[0].source)
  }

  function NextCache(x: Txn): CacheRow
    requires x.todo != [] && x.todo[0].CacheLink? && x.at.AtConfig?
  {
    CacheRow(x.at.c, x.todo[0].version, x.todo[0].params)
  }

  predicate OnConfig(x: Txn)
  {
    x.todo != [] && x.todo[0].ConfigLink? && !x.at.AtConfig?
  }

  predicate OnCache(x: Txn)
  {
    x.todo != [] && x.todo[0].CacheLink? && x.at.AtConfig?
  }

  ghost predicate Enabled(w: World, s: Step)
  {
    match s
    case Begin(p, goal, b) => p !in w.txns && FindsBase(w.db.tables, BaseName(BaseOf(goal)), Some(b))
    case Look(p, r) =>
      && p in w.txns && !w.txns[p].missing
      && var x := w.txns[p];
         || (OnConfig(x) && FindsConfigRow(View(w.db.tables, x), NextConfig(x), r))
         || (OnCache(x) && FindsCacheRow(View(w.db.tables, x), NextCache(x), r))
    case Insert(p) => p in w.txns && w.txns[p].missing && !Blocked(w, p)
    case Commit(p) => p in w.txns && w.txns[p].todo == []
    case RollBack(p) => p in w.txns
    case Image(k) => k in w.db.tables.caches
    case CollectConfigs(victims) => forall p, c | p in w.txns && c in victims :: C(c) !in w.txns[p].held
    case CollectCaches(victims) => forall p, k | p in w.txns && k in victims :: K(k) !in w.txns[p].held
    case _ => true
  }

  /** The unique key of the caches makes an insert wait for a transaction that has
      inserted an equal row and not ended. */
  ghost predicate Blocked(w: World, p: nat)
    requires p in w.txns
  {
    && OnCache(w.txns[p])
    && exists q, k ::
         q in w.txns && q != p && k in w.txns[q].caches && w.txns[q].caches[k] == NextCache(w.txns[p])
  }

  // ---- Steps -------------------------------------------------------------------------

  function Set(w: World, p: nat, x: Txn): World
  {
    w.(txns := w.txns[p := x])
  }

  function End(w: World, p: nat): World
  {
    w.(txns := w.txns - {p})
  }

  function Looked(db: Db, x: Txn, r: Option<nat>): Txn
    requires OnConfig(x) || OnCache(x)
  {
    match r
    case None => x.(missing := true, tried := if OnConfig(x) then x.tried + {NextConfig(x)} else x.tried)
    case Some(id) =>
      var row := if OnConfig(x) then C(id) else K(id);
      var committed := if row.C? then id in db.tables.configs else id in db.tables.caches;
      x.(at := if OnConfig(x) then AtConfig(id) else AtCache(id), todo := x.todo[1..],
         held := if committed then x.held + {row} else x.held)
  }

  ghost function Inserted(w: World, p: nat): World
    requires p in w.txns && (OnConfig(w.txns[p]) || OnCache(w.txns[p]))
  {
    var x, t := w.txns[p], w.db.tables;
    if OnConfig(x) then
      World(w.db.(tables := t.(nextConfig := t.nextConfig + 1)),
            w.txns[p := x.(at := AtConfig(t.nextConfig), todo := x.todo[1..], missing := false,
                           configs := x.configs[t.nextConfig := NextConfig(x)])])
    else if !FindsCacheRow(t, NextCache(x), None) then
      End(w.(db := w.db.(tables := t.(nextCache := t.nextCache + 1))), p)      // the key fires: roll back and retry
    else
      World(w.db.(tables := t.(nextCache := t.nextCache + 1)),
            w.txns[p := x.(at := AtCache(t.nextCache), todo := x.todo[1..], missing := false,
                           caches := x.caches[t.nextCache := NextCache(x)])])
  }

  function Seen(y: Txn, x: Txn): Txn
  {
    y.(rivals := y.rivals + (set c | c in x.configs && x.configs[c] in y.tried))
  }

  function AfterCommit(w: World, p: nat): World
    requires p in w.txns
  {
    var x := w.txns[p];
    World(w.db.(tables := View(w.db.tables, x),
                sessions := if x.at.AtConfig? then w.db.sessions + {x.at.c} else w.db.sessions,
                uses := if x.at.AtCache? then w.db.uses + {x.at.k} else w.db.uses),
          map q | q in w.txns && q != p :: Seen(w.txns[q], x))
  }

  ghost function Do(w: World, s: Step): World
    requires Enabled(w, s)
  {
    match s
    case Begin(p, goal, b) => Set(w, p, Txn(goal, Program(goal), AtBase(b), false, map[], map[], {}, {}, {}))
    case Look(p, r) => Set(w, p, Looked(w.db, w.txns[p], r))
    case Insert(p) => if OnConfig(w.txns[p]) || OnCache(w.txns[p]) then Inserted(w, p) else w
    case Commit(p) => AfterCommit(w, p)
    case RollBack(p) => End(w, p)
    case Unuse(k) => w.(db := w.db.(uses := w.db.uses - {k}))
    case CloseSession(c) => w.(db := w.db.(sessions := w.db.sessions - {c}))
    case Image(k) => w.(db := w.db.(images := w.db.images + {k}))
    case Unimage(k) => w.(db := w.db.(images := w.db.images - {k}))
    case Inputs(pairs) => w.(db := w.db.(inputs := pairs))
    case CollectConfigs(victims) => w.(db := DeleteConfigs(w.db, victims))
    case CollectCaches(victims) => w.(db := DeleteCaches(w.db, victims))
  }

  ghost predicate Allowed(w: World, steps: seq<Step>)
    decreases |steps|
  {
    steps == [] || (Enabled(w, steps[0]) && Allowed(Do(w, steps[0]), steps[1..]))
  }

  ghost function Exec(w: World, steps: seq<Step>): World
    requires Allowed(w, steps)
    decreases |steps|
  {
    if steps == [] then w else Exec(Do(w, steps[0]), steps[1..])
  }

  // ---- The invariant -----------------------------------------------------------------

  ghost predicate OwnConfigOk(t: Tables, x: Txn, c: nat)
    requires c in x.configs
  {
    && c < t.nextConfig && c !in t.configs && x.configs[c] in x.tried
    && match x.configs[c].parent
       case OfBase(b) => b in t.bases
       case OfCache(k) =>
         || (k in x.caches && x.caches[k].config < c)
         || (K(k) in x.held && k in t.caches && t.caches[k].config < c)
  }

  ghost predicate OwnCacheOk(t: Tables, x: Txn, k: nat)
    requires k in x.caches
  {
    && k < t.nextCache && k !in t.caches && !x.caches[k].params.Nil?
    && (x.caches[k].config in x.configs || (C(x.caches[k].config) in x.held && x.caches[k].config in t.configs))
    && FindsCacheRow(t, x.caches[k], None)
  }

  /** Its own rows refer to its own or to locked rows, and its cache rows are new. */
  ghost predicate RowsOk(t: Tables, x: Txn)
  {
    && Unique(x.configs) && Unique(x.caches)
    && (forall c {:trigger OwnConfigOk(t, x, c)} | c in x.configs :: OwnConfigOk(t, x, c))
    && (forall k {:trigger OwnCacheOk(t, x, k)} | k in x.caches :: OwnCacheOk(t, x, k))
    && (forall r | r in x.held :: if r.C? then r.id in t.configs else r.id in t.caches)
  }

  /** The row reached is locked or its own. */
  ghost predicate AtOk(t: Tables, x: Txn)
  {
    match x.at
    case AtBase(b) => b in t.bases
    case AtConfig(c) => c in x.configs || (C(c) in x.held && c in t.configs)
    case AtCache(k) => k in x.caches || (K(k) in x.held && k in t.caches)
  }

  /** The rows looked up in vain are the ones inserted and the one about to be; equal
      rows in the table are rivals, and rivals in the table are such rows. */
  ghost predicate TriedOk(t: Tables, x: Txn)
  {
    && (x.missing && OnConfig(x) ==>
          NextConfig(x) in x.tried && forall c | c in x.configs :: x.configs[c] != NextConfig(x))
    && (forall row | row in x.tried :: (x.missing && OnConfig(x) && row == NextConfig(x)) || row in x.configs.Values)
    && (forall c | c in t.configs && t.configs[c] in x.tried :: c in x.rivals)
    && (forall c | c in x.rivals :: c < t.nextConfig && (c in t.configs ==> t.configs[c] in x.tried))
  }

  ghost predicate TodoOk(x: Txn)
  {
    && Alternates(x.at.AtConfig?, x.todo)
    && (x.missing ==> x.todo != [])
    && (x.missing && OnCache(x) ==> forall k | k in x.caches :: x.caches[k] != NextCache(x))
  }

  predicate Sees(t: Tables, at: At)
  {
    match at
    case AtBase(b) => b in t.bases
    case AtConfig(c) => c in t.configs
    case AtCache(k) => k in t.caches
  }

  ghost function Meaning(t: Tables, at: At): Part
    requires Ok(t) && Sees(t, at)
  {
    match at
    case AtBase(b) => PBase(t.bases[b])
    case AtConfig(c) => PConfig(ConfigOf(t, c))
    case AtCache(k) => PCache(CacheOf(t, k))
  }

  ghost predicate Structure(t: Tables, x: Txn)
  {
    RowsOk(t, x) && AtOk(t, x) && TriedOk(t, x) && TodoOk(x)
  }

  /** What a transaction sees is in order. */
  lemma ViewIsOk(t: Tables, x: Txn)
    requires Ok(t) && RowsOk(t, x)
    ensures Ok(View(t, x)) && Within(t, View(t, x))
  {
    hide Unique;
    var v := View(t, x);
    OwnIsNew(t, x);
    forall c | c in v.configs
      ensures ConfigOk(v, c)
    {
      if c in x.configs { assert OwnConfigOk(t, x, c); } else { assert ConfigOk(t, c); }
    }
    forall k | k in v.caches
      ensures CacheOk(v, k)
    {
      if k in x.caches { assert OwnCacheOk(t, x, k); } else { assert CacheOk(t, k); }
    }
    forall k | k in x.caches
      ensures FindsCacheRow(t, x.caches[k], None)
    {
      assert OwnCacheOk(t, x, k);
    }
    UnionIsUnique(t.caches, x.caches);
  }

  lemma OwnIsNew(t: Tables, x: Txn)
    requires RowsOk(t, x)
    ensures t.configs.Keys !! x.configs.Keys && t.caches.Keys !! x.caches.Keys
  {
    forall c | c in x.configs
      ensures c !in t.configs
    {
      assert OwnConfigOk(t, x, c);
    }
    forall k | k in x.caches
      ensures k !in t.caches
    {
      assert OwnCacheOk(t, x, k);
    }
  }

  lemma UnionIsUnique<R(!new)>(a: map<nat, R>, b: map<nat, R>)
    requires Unique(a) && Unique(b) && forall i, j | i in a && j in b :: a[i] != b[j]
    ensures Unique(a + b)
  {
  }

  ghost predicate TxnOk(t: Tables, x: Txn)
    requires Ok(t)
  {
    Structure(t, x) && (ViewIsOk(t, x); Fold(Meaning(View(t, x), x.at), x.todo) == GoalPart(x.goal))
  }

  ghost predicate Apart(x: Txn, y: Txn)
  {
    && x.configs.Keys !! y.configs.Keys && x.caches.Keys !! y.caches.Keys && x.rivals !! y.configs.Keys
    && forall j, k | j in x.caches && k in y.caches :: x.caches[j] != y.caches[k]
  }

  ghost predicate Inv(w: World)
  {
    && DbOk(w.db)
    && (forall p {:trigger w.txns[p]} | p in w.txns :: TxnOk(w.db.tables, w.txns[p]))
    && (forall p, q | p in w.txns && q in w.txns && p != q :: Apart(w.txns[p], w.txns[q]))
  }
}
