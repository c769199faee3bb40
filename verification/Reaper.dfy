/**
 * The build log reaper for one job: each run deletes the events of the oldest builds
 * still logged, at most a batch of them, up to a running or a retained build. It makes
 * up to three listings, each of the table as it is then, and each may break after some
 * rows without notice.
 */
module Reaper {
  import opened Pages

  /** Index of the oldest build among the newest `retain`. */
  function Keep(t: seq<Build>, retain: nat): (k: nat)
    ensures k <= |t|
  {
    |t| - Min(|t|, retain)
  }

  function Ids(s: seq<Build>): (r: seq<nat>)
    ensures |r| == |s| && forall i | 0 <= i < |s| :: r[i] == s[i].id
  {
    seq(|s|, i requires 0 <= i < |s| => s[i].id)
  }

  // ---- What a run decides --------------------------------------------------------

  /** Build 1 is listed on its own. */
  function OneOf(t: seq<Build>, first: nat, read: nat): seq<Build>
  {
    if first <= 1 then Listed(t, CutPage(Page(2, 0, 1), read)) else []
  }

  /** The builds considered, newest first. */
  function AllOf(t: seq<Build>, first: nat, batch: nat, one: seq<Build>, read: nat): seq<Build>
  {
    if batch <= |one| then one
    else Listed(t, CutPage(Page(0, if first <= 1 then 1 else first - 1, batch - |one|), read)) + one
  }

  /** The walk from the oldest build considered. */
  function Pick(builds: seq<Build>, retainFrom: nat): seq<nat>
  {
    if builds == [] then []
    else
      var oldest := builds[|builds| - 1];
      if oldest.id >= retainFrom || oldest.running then []
      else [oldest.id] + Pick(builds[..|builds| - 1], retainFrom)
  }

  function Decide(t: seq<Build>, retain: nat, builds: seq<Build>, read: nat): seq<nat>
  {
    var retained := Listed(t, CutPage(Page(0, 0, retain), read));
    if retained == [] then [] else Pick(builds, retained[|retained| - 1].id)
  }

  /** What is picked are the oldest builds considered, up to one that is running or retained. */
  lemma {:induction false} PickIs(builds: seq<Build>, from: nat)
    ensures var ids, n := Pick(builds, from), |builds|;
      && |ids| <= n
      && (forall i | 0 <= i < |ids| ::
            ids[i] == builds[n - 1 - i].id && ids[i] < from && !builds[n - 1 - i].running)
      && (|ids| < n ==> builds[n - 1 - |ids|].id >= from || builds[n - 1 - |ids|].running)
  {
    if builds != [] {
      var rest := builds[..|builds| - 1];
      PickIs(rest, from);
      assert forall i | 0 <= i < |rest| :: builds[i] == rest[i];
    }
  }

  /** Where the retained builds begin. */
  lemma RetainedFrom(t: seq<Build>, retain: nat, read: nat)
    requires Ascending(t)
    ensures var retained, n := Listed(t, CutPage(Page(0, 0, retain), read)), Min(|t|, Min(retain, read));
      && (retained == [] <==> n == 0)
      && (n > 0 ==> retained[|retained| - 1] == t[|t| - n])
  {
    hide Listed, Reversed;
    var page := CutPage(Page(0, 0, retain), read);
    PageIsWindow(t, page);
    if Listed(t, page) != [] { WindowEnds(t, page); }
  }

  // ---- The run ---------------------------------------------------------------------

  /** The builds a run considers, listed from the tables as they are then. */
  method Consider(t0: seq<Build>, read0: nat, t1: seq<Build>, read1: nat, first: nat, batch: nat)
    returns (builds: seq<Build>)
    ensures builds == AllOf(t1, first, batch, OneOf(t0, first, read0), read1)
  {
    builds := [];
    var until := first - 1;
    var limit: int := batch;
    if first <= 1 {
      until := 1;
      var one, _ := JobBuilds(t0, Page(2, 0, 1), read0, 0, 0);
      builds := one;
      limit := limit - |builds|;
    }
    if limit > 0 {
      var more, _ := JobBuilds(t1, Page(0, until, limit), read1, 0, 0);
      builds := more + builds;
    }
  }

  method Choose(builds: seq<Build>, retainFrom: nat) returns (deleted: seq<nat>)
    ensures deleted == Pick(builds, retainFrom)
  {
    deleted := [];
    var i := |builds| - 1;
    assert builds[..|builds|] == builds;
    while i >= 0
      invariant -1 <= i < |builds|
      invariant Pick(builds, retainFrom) == deleted + Pick(builds[..i + 1], retainFrom)
    {
      var build := builds[i];
      assert builds[..i + 1][..i] == builds[..i];
      if build.id >= retainFrom || build.running { return; }
      deleted := deleted + [build.id];
      i := i - 1;
    }
  }

  /** One run for the job. It deletes ids of builds considered, oldest first, and moves
      first_logged_build_id past them. */
  method Reap(t0: seq<Build>, read0: nat, t1: seq<Build>, read1: nat, t2: seq<Build>, read2: nat,
              first: nat, batch: nat, retain: nat) returns (deleted: seq<nat>, newFirst: nat)
    ensures deleted ==
      if retain == 0 then [] else Decide(t2, retain, AllOf(t1, first, batch, OneOf(t0, first, read0), read1), read2)
    ensures newFirst == if deleted == [] then first else deleted[|deleted| - 1] + 1
    ensures Ascending(t0) && Ascending(t1) ==> newFirst >= first
    ensures Ascending(t0) && t0 == t1 == t2 && read0 >= 1 && read1 >= batch && read2 >= retain ==>
      deleted == Ids(t0[Below(t0, first)..Reached(t0, first, batch, retain)])
  {
    deleted, newFirst := [], first;
    if retain > 0 {
      var builds := Consider(t0, read0, t1, read1, first, batch);
      var retained, _ := JobBuilds(t2, Page(0, 0, retain), read2, 0, 0);
      if |retained| > 0 {
        deleted := Choose(builds, retained[|retained| - 1].id);
        PickIs(builds, retained[|retained| - 1].id);
      }
      if |deleted| > 0 { newFirst := deleted[|deleted| - 1] + 1; }
    }
    if Ascending(t0) && Ascending(t1) && deleted != [] {
      NeverBack(t0, read0, t1, read1, first, batch, deleted[|deleted| - 1]);
    }
    if Ascending(t0) && t0 == t1 == t2 && read0 >= 1 && read1 >= batch && read2 >= retain {
      AtRest(t0, read0, read1, read2, first, batch, retain);
    }
  }

  // ---- On a table at rest ------------------------------------------------------------

  /** From `a` on, the first build that is not to be reaped, or `c`. */
  function StopAt(t: seq<Build>, a: nat, c: nat, keep: nat): (b: nat)
    requires c <= |t|
    ensures a <= b && (a <= c ==> b <= c)
    decreases c - a
  {
    if a >= c || a >= keep || t[a].running then a else StopAt(t, a + 1, c, keep)
  }

  /** How far one run looks. Build 1 is looked at even with an empty batch. */
  function LooksTo(t: seq<Build>, first: nat, batch: nat): (c: nat)
    ensures Below(t, first) <= c <= |t|
  {
    var c := Min(|t|, Below(t, first) + batch);
    if first <= 1 && c < Below(t, 2) && Below(t, first) <= Below(t, 2) then Below(t, 2) else c
  }

  function Reached(t: seq<Build>, first: nat, batch: nat, retain: nat): (b: nat)
    ensures Below(t, first) <= b <= |t|
  {
    if retain == 0 then Below(t, first) else StopAt(t, Below(t, first), LooksTo(t, first, batch), Keep(t, retain))
  }

  lemma AboutOne(t: seq<Build>, first: nat)
    requires Ascending(t) && first <= 1
    ensures Below(t, first) == 0 && Below(t, 2) <= 1 && (Below(t, 2) == 1 <==> t != [] && t[0].id == 1)
  {
    BelowIs(t, first, 0);
    BelowSplits(t, 2);
  }

  /** The build with id 1, if it is there and the reading does not break. */
  lemma OneIs(t: seq<Build>, first: nat, read: nat)
    requires Ascending(t)
    ensures OneOf(t, first, read) == if first <= 1 && read > 0 && t != [] && t[0].id == 1 then [t[0]] else []
  {
    hide Listed, Reversed;
    if first <= 1 {
      AboutOne(t, first);
      PageIsWindow(t, CutPage(Page(2, 0, 1), read));
      assert read > 0 && Below(t, 2) == 1 ==> t[0..1] == [t[0]];
      ReversedOne(t);
      EmptyReversed<Build>();
    }
  }

  lemma ReversedOne(t: seq<Build>)
    ensures t != [] ==> Reversed([t[0]]) == [t[0]]
  {
    EmptyReversed<Build>();
  }

  /** After `one`, neighbouring builds from where the page starts. */
  lemma AllIs(t: seq<Build>, first: nat, batch: nat, one: seq<Build>, read: nat) returns (m: nat, hi: nat)
    requires Ascending(t)
    ensures m == Below(t, if first <= 1 then 2 else first) <= hi == Min(|t|, m + Min(read, Minus(batch, |one|)))
    ensures AllOf(t, first, batch, one, read) == Reversed(t[m..hi]) + one
  {
    hide Listed, Reversed;
    m := Below(t, if first <= 1 then 2 else first);
    hi := Min(|t|, m + Min(read, Minus(batch, |one|)));
    if batch <= |one| {
      assert t[m..hi] == [];
      EmptyReversed<Build>();
    } else {
      PageIsWindow(t, CutPage(Page(0, if first <= 1 then 1 else first - 1, batch - |one|), read));
    }
  }

  function Minus(a: nat, b: nat): nat
  {
    if a < b then 0 else a - b
  }

  /** An unbroken look at a table at rest: the oldest builds not yet reaped. */
  lemma RestIsConsidered(t: seq<Build>, read0: nat, read1: nat, first: nat, batch: nat)
    requires Ascending(t) && read0 >= 1 && read1 >= batch
    ensures AllOf(t, first, batch, OneOf(t, first, read0), read1) ==
      Reversed(t[Below(t, first)..LooksTo(t, first, batch)])
  {
    hide Listed, Reversed, Below, OneOf, AllOf;
    OneIs(t, first, read0);
    var one := OneOf(t, first, read0);
    var m, hi := AllIs(t, first, batch, one, read1);
    if first <= 1 {
      AboutOne(t, first);
      ReversedOne(t);
      if one != [] { assert [t[0]] + t[1..hi] == t[0..hi]; ReversedConcat([t[0]], t[1..hi]); }
    }
  }

  /** No build considered is below `first`. */
  lemma NeverBack(t0: seq<Build>, read0: nat, t1: seq<Build>, read1: nat, first: nat, batch: nat, id: nat)
    requires Ascending(t0) && Ascending(t1)
    requires exists b :: b in AllOf(t1, first, batch, OneOf(t0, first, read0), read1) && b.id == id
    ensures id + 1 >= first
  {
    hide Reversed, Below, OneOf, AllOf;
    OneIs(t0, first, read0);
    var one := OneOf(t0, first, read0);
    var m, hi := AllIs(t1, first, batch, one, read1);
    var b :| b in AllOf(t1, first, batch, one, read1) && b.id == id;
    if b !in one {
      ReversedAll(t1[m..hi]);
      BelowSplits(t1, if first <= 1 then 2 else first);
      var k :| 0 <= k < hi - m && Reversed(t1[m..hi])[k] == b;
      assert b == t1[hi - 1 - k];
    }
  }

  lemma {:induction false} StopAtIs(t: seq<Build>, a: nat, c: nat, keep: nat, b: nat)
    requires a <= b <= c <= |t|
    requires forall i | a <= i < b :: i < keep && !t[i].running
    requires b < c ==> b >= keep || t[b].running
    ensures StopAt(t, a, c, keep) == b
    decreases c - a
  {
    if a < b {
      assert !t[a].running;
      StopAtIs(t, a + 1, c, keep, b);
    }
  }

  lemma PickIsStop(t: seq<Build>, a: nat, c: nat, keep: nat)
    requires Ascending(t) && a <= c <= |t| && keep < |t|
    ensures Pick(Reversed(t[a..c]), t[keep].id) == Ids(t[a..StopAt(t, a, c, keep)])
  {
    hide Reversed, StopAt, Pick;
    var builds := Reversed(t[a..c]);
    var ids := Pick(builds, t[keep].id);
    PickIs(builds, t[keep].id);
    ReversedAll(t[a..c]);
    var b := a + |ids|;
    forall i | a <= i < b
      ensures ids[i - a] == t[i].id && i < keep && !t[i].running
    {
      assert ids[i - a] == builds[c - 1 - i].id;
    }
    if b < c { assert builds[c - 1 - b] == t[b]; }
    assert forall i | a <= i < b :: i < keep && !t[i].running;
    StopAtIs(t, a, c, keep, b);
  }

  lemma ReversedAll(w: seq<Build>)
    ensures forall k | 0 <= k < |w| :: Reversed(w)[k] == w[|w| - 1 - k]
  {
    forall k | 0 <= k < |w|
      ensures Reversed(w)[k] == w[|w| - 1 - k]
    {
      ReversedAt(w, k);
    }
  }

  /** On a table at rest an unbroken run deletes exactly the next eligible builds. */
  lemma AtRest(t: seq<Build>, read0: nat, read1: nat, read2: nat, first: nat, batch: nat, retain: nat)
    requires Ascending(t) && read0 >= 1 && read1 >= batch && read2 >= retain
    ensures
      var ids := Decide(t, retain, AllOf(t, first, batch, OneOf(t, first, read0), read1), read2);
      (if retain == 0 then [] else ids) == Ids(t[Below(t, first)..Reached(t, first, batch, retain)])
  {
    hide Listed, Reversed, Below, OneOf, AllOf, StopAt, Pick, LooksTo;
    if retain > 0 {
      RestIsConsidered(t, read0, read1, first, batch);
      RetainedFrom(t, retain, read2);
      if |t| > 0 { PickIsStop(t, Below(t, first), LooksTo(t, first, batch), Keep(t, retain)); }
    }
  }
}
