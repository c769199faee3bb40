/**
 * Paginated build listings: of one job, and of all builds a user may see. A table is
 * the sequence of its builds in id order; ids are positive and only grow.
 */
module Pages {
  import opened Options

  datatype Build = Build(id: nat, running: bool)

  datatype Page = Page(since: nat, until: nat, limit: nat)

  datatype Links = Links(previous: Option<Page>, next: Option<Page>)

  predicate Ascending(t: seq<Build>)
  {
    (forall i | 0 <= i < |t| :: t[i].id > 0) && forall i, j | 0 <= i < j < |t| :: t[i].id < t[j].id
  }

  predicate Matches(page: Page, b: Build)
  {
    if page.until != 0 then b.id > page.until else page.since != 0 ==> b.id < page.since
  }

  // ---- The query ---------------------------------------------------------------

  /** WHERE, in id order. */
  function Matching(t: seq<Build>, page: Page): seq<Build>
  {
    if t == [] then [] else (if Matches(page, t[0]) then [t[0]] else []) + Matching(t[1..], page)
  }

  function Reversed<T>(s: seq<T>): (r: seq<T>)
    ensures |r| == |s|
  {
    if s == [] then [] else Reversed(s[1..]) + [s[0]]
  }

  function Take<T>(s: seq<T>, n: nat): seq<T>
  {
    if |s| <= n then s else s[..n]
  }

  /** ORDER BY and LIMIT: up from `until`, down otherwise. */
  function Rows(t: seq<Build>, page: Page): seq<Build>
  {
    if page.until != 0 then Take(Matching(t, page), page.limit) else Take(Reversed(Matching(t, page)), page.limit)
  }

  /** What a caller gets: always newest first. */
  function Listed(t: seq<Build>, page: Page): seq<Build>
  {
    if page.until != 0 then Reversed(Rows(t, page)) else Rows(t, page)
  }

  /** What a request lists whose row iteration breaks after `read` rows: the code does not
      ask why it ended, so it is a page of that length. */
  function CutPage(page: Page, read: nat): Page
  {
    page.(limit := Min(page.limit, read))
  }

  function Min(a: nat, b: nat): nat
  {
    if a < b then a else b
  }

  function LinksOf(builds: seq<Build>, minId: nat, maxId: nat, limit: nat): Links
  {
    if builds == [] then Links(None, None)
    else Links(if builds[0].id < maxId then Some(Page(0, builds[0].id, limit)) else None,
               if builds[|builds| - 1].id > minId then Some(Page(builds[|builds| - 1].id, 0, limit)) else None)
  }

  /** MIN and MAX of the ids of `all`, or 0. */
  ghost predicate Bounds(all: set<Build>, minId: nat, maxId: nat)
  {
    && (all == {} ==> minId == maxId == 0)
    && (forall b | b in all :: minId <= b.id <= maxId)
    && (all != {} ==> (exists b :: b in all && b.id == minId) && (exists b :: b in all && b.id == maxId))
  }

  /** A page has no Previous link exactly when no build is newer than its first, and no
      Next link exactly when none is older than its last; the links lead there. */
  lemma LinksMean(builds: seq<Build>, all: set<Build>, minId: nat, maxId: nat, limit: nat)
    requires Bounds(all, minId, maxId) && builds != [] && forall b | b in builds :: b in all
    ensures var links, first, last := LinksOf(builds, minId, maxId, limit), builds[0].id, builds[|builds| - 1].id;
      && (links.previous.None? <==> forall b | b in all :: b.id <= first)
      && (links.next.None? <==> forall b | b in all :: b.id >= last)
      && (links.previous.Some? ==> links.previous.value == Page(0, first, limit))
      && (links.next.Some? ==> links.next.value == Page(last, 0, limit))
  {
    assert builds[0] in all && builds[|builds| - 1] in all;
    if builds[0].id < maxId { var b :| b in all && b.id == maxId; }
    if builds[|builds| - 1].id > minId { var b :| b in all && b.id == minId; }
  }

  // ---- The two listings ----------------------------------------------------------

  lemma {:induction false} ReversedAt<T>(s: seq<T>, k: nat)
    requires k < |s|
    ensures Reversed(s)[k] == s[|s| - 1 - k]
  {
    if k < |s| - 1 { ReversedAt(s[1..], k); }
  }

  lemma {:induction false} ReversedSnoc<T>(s: seq<T>, x: T)
    ensures Reversed(s + [x]) == [x] + Reversed(s)
  {
    if s != [] {
      ReversedSnoc(s[1..], x);
      assert (s + [x])[1..] == s[1..] + [x];
    }
  }

  lemma {:induction false} MatchingIgnoresLimit(t: seq<Build>, page: Page, limit: nat)
    ensures Matching(t, page.(limit := limit)) == Matching(t, page)
  {
    if t != [] { MatchingIgnoresLimit(t[1..], page, limit); }
  }

  lemma CutRows(t: seq<Build>, page: Page, read: nat)
    ensures Rows(t, CutPage(page, read)) == Take(Rows(t, page), read)
  {
    MatchingIgnoresLimit(t, page, Min(page.limit, read));
  }

  /** Rows read in reverse are prepended one by one. */
  method ReadRows(rows: seq<Build>, reverse: bool, read: nat) returns (builds: seq<Build>)
    ensures builds == if reverse then Reversed(Take(rows, read)) else Take(rows, read)
  {
    builds := [];
    var i := 0;
    while i < |rows| && i < read
      invariant i <= |rows| && i <= read
      invariant builds == if reverse then Reversed(rows[..i]) else rows[..i]
    {
      ReversedSnoc(rows[..i], rows[i]);
      assert rows[..i + 1] == rows[..i] + [rows[i]];
      if reverse { builds := [rows[i]] + builds; } else { builds := builds + [rows[i]]; }
      i := i + 1;
    }
    assert rows[..i] == Take(rows, read);
  }

  /** A job's builds. */
  method JobBuilds(t: seq<Build>, page: Page, read: nat, minId: nat, maxId: nat)
    returns (builds: seq<Build>, links: Links)
    ensures builds == Listed(t, CutPage(page, read))
    ensures links == LinksOf(builds, minId, maxId, page.limit)
  {
    builds := ReadRows(Rows(t, page), page.until != 0, read);
    CutRows(t, page, read);
    if |builds| == 0 { return builds, Links(None, None); }
    links := LinkEnds(builds[0], builds[|builds| - 1], minId, maxId, page.limit);
  }

  method LinkEnds(first: Build, last: Build, minId: nat, maxId: nat, limit: nat) returns (links: Links)
    ensures forall builds: seq<Build> | builds != [] && builds[0] == first && builds[|builds| - 1] == last ::
      links == LinksOf(builds, minId, maxId, limit)
  {
    links := Links(None, None);
    if first.id < maxId { links := links.(previous := Some(Page(0, first.id, limit))); }
    if last.id > minId { links := links.(next := Some(Page(last.id, 0, limit))); }
  }

  /** All builds: rows read in reverse are swapped in place. */
  method AllBuilds(t: seq<Build>, page: Page, read: nat, minId: nat, maxId: nat)
    returns (builds: array<Build>, links: Links)
    ensures fresh(builds) && builds[..] == Listed(t, CutPage(page, read))
    ensures links == LinksOf(builds[..], minId, maxId, page.limit)
  {
    var rows := Take(Rows(t, page), read);
    CutRows(t, page, read);
    builds := new Build[|rows|](i requires 0 <= i < |rows| => rows[i]);
    assert builds[..] == rows;
    if page.until != 0 { SwapEnds(builds); }
    if builds.Length == 0 { return builds, Links(None, None); }
    var first, last := builds[0], builds[builds.Length - 1];
    assert first == builds[..][0] && last == builds[..][|builds[..]| - 1];
    links := LinkEnds(first, last, minId, maxId, page.limit);
  }

  method SwapEnds(a: array<Build>)
    modifies a
    ensures a[..] == Reversed(old(a[..]))
  {
    var i, j := 0, a.Length - 1;
    while i < j
      invariant 0 <= i <= j + 1 && i + j == a.Length - 1
      invariant forall k | 0 <= k < i :: a[k] == old(a[a.Length - 1 - k])
      invariant forall k | j < k < a.Length :: a[k] == old(a[a.Length - 1 - k])
      invariant forall k | i <= k <= j :: a[k] == old(a[k])
    {
      a[i], a[j] := a[j], a[i];
      i, j := i + 1, j - 1;
    }
    ghost var was := old(a[..]);
    forall k | 0 <= k < a.Length
      ensures a[..][k] == Reversed(was)[k]
    {
      ReversedAt(was, k);
    }
  }

  // ---- A page is a window on the table -------------------------------------------

  /** How many builds have an id below `x`. */
  function Below(t: seq<Build>, x: nat): (n: nat)
    ensures n <= |t|
  {
    if t == [] || t[0].id >= x then 0 else 1 + Below(t[1..], x)
  }

  lemma {:induction false} BelowSplits(t: seq<Build>, x: nat)
    requires Ascending(t)
    ensures forall i | 0 <= i < |t| :: t[i].id < x <==> i < Below(t, x)
  {
    if t != [] && t[0].id < x { BelowSplits(t[1..], x); }
  }

  /** A cut of an ascending table is the only one of its kind. */
  lemma BelowIs(t: seq<Build>, x: nat, n: nat)
    requires Ascending(t) && n <= |t|
    requires n < |t| ==> t[n].id >= x
    requires n > 0 ==> t[n - 1].id < x
    ensures Below(t, x) == n
  {
    BelowSplits(t, x);
  }

  function Lo(t: seq<Build>, page: Page): nat
  {
    if page.until != 0 then Below(t, page.until + 1) else Hi(t, page) - Min(Hi(t, page), page.limit)
  }

  function Hi(t: seq<Build>, page: Page): (n: nat)
    ensures n <= |t|
  {
    if page.until != 0 then Min(|t|, Below(t, page.until + 1) + page.limit)
    else if page.since != 0 then Below(t, page.since) else |t|
  }

  lemma {:induction false} MatchingSuffix(t: seq<Build>, page: Page, n: nat)
    requires n <= |t| && forall i | 0 <= i < |t| :: Matches(page, t[i]) <==> i >= n
    ensures Matching(t, page) == t[n..]
  {
    hide Matches;
    if t != [] {
      MatchingSuffix(t[1..], page, if n == 0 then 0 else n - 1);
      if n > 0 { assert t[1..][n - 1..] == t[n..]; } else { assert [t[0]] + t[1..] == t; }
    }
  }

  lemma {:induction false} MatchingPrefix(t: seq<Build>, page: Page, n: nat)
    requires n <= |t| && forall i | 0 <= i < |t| :: Matches(page, t[i]) <==> i < n
    ensures Matching(t, page) == t[..n]
  {
    hide Matches;
    if t != [] {
      MatchingPrefix(t[1..], page, if n == 0 then 0 else n - 1);
      if n > 0 { assert [t[0]] + t[1..][..n - 1] == t[..n]; }
    }
  }

  lemma MatchingIs(t: seq<Build>, page: Page)
    requires Ascending(t)
    ensures Matching(t, page) == if page.until != 0 then t[Below(t, page.until + 1)..] else t[..Hi(t, page)]
  {
    hide Matching;
    BelowSplits(t, page.until + 1);
    BelowSplits(t, page.since);
    if page.until != 0 {
      MatchingSuffix(t, page, Below(t, page.until + 1));
    } else {
      MatchingPrefix(t, page, Hi(t, page));
    }
  }

  lemma {:induction false} ReversedFrom<T>(s: seq<T>, m: nat)
    requires m <= |s|
    ensures Reversed(s)[..|s| - m] == Reversed(s[m..])
  {
    if m > 0 {
      ReversedFrom(s[1..], m - 1);
      assert s[1..][m - 1..] == s[m..];
    }
  }

  /** Every page lists a run of neighbouring builds, newest first. */
  lemma PageIsWindow(t: seq<Build>, page: Page)
    requires Ascending(t)
    ensures Lo(t, page) <= Hi(t, page) <= |t|
    ensures Listed(t, page) == Reversed(t[Lo(t, page)..Hi(t, page)])
  {
    MatchingIs(t, page);
    var m := Matching(t, page);
    if page.until != 0 {
      assert Take(m, page.limit) == t[Lo(t, page)..Hi(t, page)];
    } else {
      var n := |m| - Min(|m|, page.limit);
      ReversedFrom(m, n);
      assert Take(Reversed(m), page.limit) == Reversed(m)[..|m| - n];
      assert m[n..] == t[Lo(t, page)..Hi(t, page)];
    }
  }

  lemma WindowEnds(t: seq<Build>, page: Page)
    requires Ascending(t) && Listed(t, page) != []
    ensures var r := Listed(t, page);
      Lo(t, page) < Hi(t, page) <= |t| && r[0] == t[Hi(t, page) - 1] && r[|r| - 1] == t[Lo(t, page)]
  {
    hide Listed, Lo, Hi, Reversed;
    PageIsWindow(t, page);
    var w := t[Lo(t, page)..Hi(t, page)];
    ReversedAt(w, 0);
    ReversedAt(w, |w| - 1);
  }

  lemma {:induction false} ReversedConcat<T>(a: seq<T>, b: seq<T>)
    ensures Reversed(a + b) == Reversed(b) + Reversed(a)
  {
    if a == [] {
      assert a + b == b;
    } else {
      ReversedConcat(a[1..], b);
      assert (a + b)[1..] == a[1..] + b;
    }
  }

  // ---- Following Next ------------------------------------------------------------

  /** The table as one request sees it, and how many rows it reads at most. The smallest
      and largest id are taken over the job's builds, or over all builds whether or not
      the user may see them. */
  datatype Seen = Seen(builds: seq<Build>, minId: nat, maxId: nat, read: nat)

  predicate Grown(t: seq<Build>, seen: Seen)
  {
    && Ascending(seen.builds) && t <= seen.builds
    && forall b | b in seen.builds :: seen.minId <= b.id <= seen.maxId
  }

  function Shown(seen: Seen, page: Page): seq<Build>
  {
    Listed(seen.builds, CutPage(page, seen.read))
  }

  function NextOf(seen: Seen, page: Page): Option<Page>
  {
    LinksOf(Shown(seen, page), seen.minId, seen.maxId, page.limit).next
  }

  /** All that is listed by following Next, one request after another. */
  function Walk(requests: seq<Seen>, page: Page): seq<Build>
    decreases |requests|
  {
    if requests == [] then []
    else
      var next := NextOf(requests[0], page);
      Shown(requests[0], page) + if next.None? then [] else Walk(requests[1..], next.value)
  }

  /** A page without Next is reached within these requests. */
  predicate Ends(requests: seq<Seen>, page: Page)
    decreases |requests|
  {
    requests != [] && (NextOf(requests[0], page).None? || Ends(requests[1..], NextOf(requests[0], page).value))
  }

  /** On the way a request breaks before its first row, though there is one. */
  predicate Breaks(requests: seq<Seen>, page: Page)
    decreases |requests|
  {
    requests != [] &&
    (|| (requests[0].read == 0 && Listed(requests[0].builds, page) != [])
     || (NextOf(requests[0], page).Some? && Breaks(requests[1..], NextOf(requests[0], page).value)))
  }

  /** Next points below the oldest build shown, unless that is the oldest of all. */
  lemma NextIs(t: seq<Build>, seen: Seen, page: Page)
    requires Grown(t, seen)
    ensures var cut := CutPage(page, seen.read);
      var lo, hi := Lo(seen.builds, cut), Hi(seen.builds, cut);
      && lo <= hi <= |seen.builds| && Shown(seen, page) == Reversed(seen.builds[lo..hi])
      && (NextOf(seen, page).Some? ==> lo < hi && NextOf(seen, page).value == Page(seen.builds[lo].id, 0, page.limit))
      && (NextOf(seen, page).None? && lo < hi ==> lo == 0)
  {
    hide Listed, Lo, Hi;
    var cut := CutPage(page, seen.read);
    PageIsWindow(seen.builds, cut);
    if Shown(seen, page) != [] {
      WindowEnds(seen.builds, cut);
      var lo := Lo(seen.builds, cut);
      assert seen.builds[0] in seen.builds && seen.builds[lo] in seen.builds;
    }
  }

  lemma SinceIs(t: seq<Build>, k: nat, limit: nat)
    requires Ascending(t) && k < |t|
    ensures Hi(t, Page(t[k].id, 0, limit)) == k && Lo(t, Page(t[k].id, 0, limit)) == k - Min(k, limit)
  {
    BelowIs(t, t[k].id, k);
  }

  lemma UntilIs(t: seq<Build>, k: nat, limit: nat)
    requires Ascending(t) && 0 < k <= |t|
    ensures Lo(t, Page(0, t[k - 1].id, limit)) == k && Hi(t, Page(0, t[k - 1].id, limit)) == Min(|t|, k + limit)
  {
    BelowIs(t, t[k - 1].id + 1, k);
  }

  /** Whether there is something to list does not depend on the limit. */
  lemma EmptyIff(t: seq<Build>, page: Page)
    requires Ascending(t) && page.until == 0 && page.limit > 0
    ensures Listed(t, page) == [] <==> Hi(t, page) == 0
  {
    hide Listed, Hi, Reversed;
    PageIsWindow(t, page);
  }

  lemma {:induction false} WalkDown(t: seq<Build>, requests: seq<Seen>, page: Page, n: nat)
    requires Ascending(t) && page.until == 0 && page.limit > 0
    requires forall i | 0 <= i < |requests| :: Grown(t, requests[i])
    requires n <= |t| && |requests| > n && Hi(requests[0].builds, page) == n
    ensures Ends(requests, page)
    ensures if Breaks(requests, page) then |Walk(requests, page)| < n else Walk(requests, page) == Reversed(t[..n])
    decreases n
  {
    hide Ascending, Listed, NextOf, Hi, Reversed, Shown;
    var now := requests[0].builds;
    var cut := CutPage(page, requests[0].read);
    EmptyIff(now, page);
    NextIs(t, requests[0], page);
    assert Hi(now, cut) == n by { SameHi(now, page, cut); }
    var lo := Lo(now, cut);
    assert now[lo..n] == t[lo..n];
    ReversedConcat(t[..lo], t[lo..n]);
    assert t[..lo] + t[lo..n] == t[..n];
    if NextOf(requests[0], page).Some? {
      var later := requests[1].builds;
      SinceIs(later, lo, page.limit);
      assert later[lo] == t[lo] == now[lo];
      WalkDown(t, requests[1..], Page(t[lo].id, 0, page.limit), lo);
      assert requests[0].read > 0;
    } else {
      EmptyReversed<Build>();
      assert lo < n ==> t[..lo] == [];
    }
  }

  lemma SameHi(t: seq<Build>, page: Page, cut: Page)
    requires page.until == cut.until == 0 && page.since == cut.since
    ensures Hi(t, page) == Hi(t, cut)
  {
  }

  lemma EmptyReversed<T>()
    ensures Reversed<T>([]) == []
  {
  }

  /** From the first page, Next leads to an end. It leads through exactly the builds
      present at the start, each once, newest first, whatever newer builds appear
      meanwhile and wherever rows break off, exactly when no request breaks before its
      first row. */
  lemma NextListsEverythingIff(t: seq<Build>, requests: seq<Seen>, limit: nat)
    requires Ascending(t) && limit > 0
    requires forall i | 0 <= i < |requests| :: Grown(t, requests[i])
    requires |requests| > |t| && requests[0].builds == t
    ensures Ends(requests, Page(0, 0, limit))
    ensures Walk(requests, Page(0, 0, limit)) == Reversed(t) <==> !Breaks(requests, Page(0, 0, limit))
  {
    WalkDown(t, requests, Page(0, 0, limit), |t|);
    assert t[..|t|] == t;
  }

  /** On a table at rest, the Previous link of the page that Next leads to returns the
      page it was reached from exactly when that was full or showed the newest build. */
  lemma PreviousUndoesNextIff(seen: Seen, page: Page, read: nat)
    requires Grown([], seen) && NextOf(seen, page).Some? && Shown(seen.(read := read), NextOf(seen, page).value) != []
    ensures
      var shown, t := Shown(seen, page), seen.builds;
      var below := Shown(seen.(read := read), NextOf(seen, page).value);
      var back := LinksOf(below, seen.minId, seen.maxId, page.limit).previous;
      && back.Some? && shown != [] && t != []
      && (Listed(t, back.value) == shown <==> |shown| == page.limit || shown[0] == t[|t| - 1])
  {
    hide Listed, Reversed, NextOf;
    var t, cut := seen.builds, CutPage(page, seen.read);
    NextIs([], seen, page);
    var lo, hi := Lo(t, cut), Hi(t, cut);
    ReversedAt(t[lo..hi], 0);
    SinceIs(t, lo, Min(page.limit, read));
    WindowEnds(t, CutPage(Page(t[lo].id, 0, page.limit), read));
    BelowMax(seen, lo);
    UntilIs(t, lo, page.limit);
    PageIsWindow(t, Page(0, t[lo - 1].id, page.limit));
  }

  lemma BelowMax(seen: Seen, k: nat)
    requires Grown([], seen) && 0 < k < |seen.builds|
    ensures seen.builds[k - 1].id < seen.maxId
  {
    assert seen.builds[k] in seen.builds;
  }
}
