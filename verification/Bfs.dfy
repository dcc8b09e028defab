/**
 A crawl by one worker is a breadth-first search over URL classes: targets are processed in order of depth, a target's
 depth is the length of a shortest discovery path to its class, and a crawl that ends with an empty queue and no
 refused push has processed exactly the classes within `maxDepth` discoveries of the seed.
 */
module Bfs {
  import opened Prelude
  import opened Dedupe
  import opened Filters
  import opened SingleWorker
  import opened SiteGraph
  import E = ExactlyOnce

  predicate SortedByDepth(ts: seq<Target>) {
    forall i, j :: 0 <= i < j < |ts| ==> ts[i].depth <= ts[j].depth
  }

  predicate DepthAtMost(ts: seq<Target>, d: nat) { forall t <- ts :: t.depth <= d }

  /** Everything issued so far is in depth order and at most one level below the head of the queue. */
  ghost predicate Levelled(done: seq<Target>, p: Pending) {
    && SortedByDepth(done + p.queue)
    && (p.queue != [] ==> DepthAtMost(done + p.queue, p.queue[0].depth + 1))
  }

  /** `u` may be crawled. */
  predicate Crawlable(e: Env, u: Url) { Permitted(e.g, u) }

  /** `t` was found on the page of `parent`. */
  ghost predicate FoundOn(e: Env, t: Target, parent: Target) {
    HasLink(e, parent.url, t.url) && t.depth == parent.depth + 1 && t.parent == Some(parent.url)
  }

  ghost predicate HasSource(e: Env, ts: seq<Target>, i: nat)
    requires i < |ts|
  {
    exists j :: 0 <= j < i && FoundOn(e, ts[i], ts[j])
  }

  /** The seed comes first and every other target was found on an earlier one. */
  ghost predicate Sourced(e: Env, ts: seq<Target>) {
    && ts != [] && ts[0] == Seed(e)
    && (forall t <- ts :: t.key == e.g.keyOf(t.url) && Crawlable(e, t.url) && t.depth <= e.o.maxDepth)
    && (forall i :: 0 < i < |ts| ==> HasSource(e, ts, i))
  }

  ghost predicate IssuedWithin(ts: seq<Target>, k: Url, d: nat) {
    exists t :: t in ts && t.key == k && t.depth <= d
  }

  /** Every URL discovered by a processed target above the depth limit has been issued, no deeper than one level on. */
  ghost predicate ClosedAt(e: Env, t: Target, ts: seq<Target>) {
    t.depth < e.o.maxDepth ==>
      forall u :: HasLink(e, t.url, u) && Crawlable(e, u) ==> IssuedWithin(ts, e.g.keyOf(u), t.depth + 1)
  }

  ghost predicate Closed(e: Env, done: seq<Target>, ts: seq<Target>) {
    forall t <- done :: ClosedAt(e, t, ts)
  }

  ghost predicate Names(ts: seq<Target>, visited: set<Url>) {
    E.DistinctKeys(ts) && E.KeysAre(ts, visited)
  }

  /** What holds whenever no push has been refused. */
  ghost predicate Searching(e: Env, done: seq<Target>, p: Pending) {
    && Sourced(e, done + p.queue)
    && Names(done + p.queue, p.visited)
    && Closed(e, done, done + p.queue)
  }

  ghost predicate Invariant(e: Env, done: seq<Target>, p: Pending) {
    Levelled(done, p) && (p.refused == 0 ==> Searching(e, done, p))
  }

  // ---- Offering one URL ----

  /** An offer changes nothing, refuses, or appends one new target. */
  lemma OfferCases(e: Env, p: Pending, u: Url, depth: nat, parent: Url)
    ensures var p', x := Offer(e, p, u, depth, parent), Target(u, e.g.keyOf(u), depth, Some(parent));
      || (p' == p && !(Crawlable(e, u) && depth <= e.o.maxDepth && x.key !in p.visited))
      || (p'.queue == p.queue && p'.refused == p.refused + 1)
      || (p'.queue == p.queue + [x] && p'.refused == p.refused && p'.visited == p.visited + {x.key}
          && x.key !in p.visited && Crawlable(e, u) && depth <= e.o.maxDepth)
  {
    DecideMeaning(e.o, e.g, u, depth, p.visited);
    hide Objection;
  }

  lemma AppendLevel(ts: seq<Target>, t: Target, d: nat)
    requires SortedByDepth(ts) && DepthAtMost(ts, d) && t.depth == d
    ensures SortedByDepth(ts + [t]) && DepthAtMost(ts + [t], d)
  {
  }

  lemma OfferLevels(e: Env, done: seq<Target>, p: Pending, u: Url, depth: nat, parent: Url)
    requires SortedByDepth(done + p.queue) && DepthAtMost(done + p.queue, depth)
    ensures var q := Offer(e, p, u, depth, parent).queue;
      SortedByDepth(done + q) && DepthAtMost(done + q, depth)
  {
    OfferCases(e, p, u, depth, parent);
    hide Offer, SortedByDepth, DepthAtMost;
    var q := Offer(e, p, u, depth, parent).queue;
    if q != p.queue {
      var x := Target(u, e.g.keyOf(u), depth, Some(parent));
      assert done + (p.queue + [x]) == done + p.queue + [x];
      AppendLevel(done + p.queue, x, depth);
    }
  }

  lemma AppendSourced(e: Env, ts: seq<Target>, x: Target, parent: Target)
    requires Sourced(e, ts) && parent in ts && FoundOn(e, x, parent)
    requires x.key == e.g.keyOf(x.url) && Crawlable(e, x.url) && x.depth <= e.o.maxDepth
    ensures Sourced(e, ts + [x])
  {
    hide FoundOn, Crawlable, Seed;
    var ts' := ts + [x];
    forall i | 0 < i < |ts'| ensures HasSource(e, ts', i) {
      if i < |ts| {
        assert HasSource(e, ts, i);
        var j :| 0 <= j < i && FoundOn(e, ts[i], ts[j]);
        assert FoundOn(e, ts'[i], ts'[j]);
      } else {
        var j :| 0 <= j < |ts| && ts[j] == parent;
        assert FoundOn(e, ts'[i], ts'[j]);
      }
    }
  }

  lemma ClosedGrows(e: Env, done: seq<Target>, ts: seq<Target>, x: Target)
    requires Closed(e, done, ts)
    ensures Closed(e, done, ts + [x])
  {
    hide Outgoing, HasLink, Crawlable;
    forall t <- done ensures ClosedAt(e, t, ts + [x]) {
      assert ClosedAt(e, t, ts);
      forall u | HasLink(e, t.url, u) && t.depth < e.o.maxDepth && Crawlable(e, u)
        ensures IssuedWithin(ts + [x], e.g.keyOf(u), t.depth + 1)
      {
        var y :| y in ts && y.key == e.g.keyOf(u) && y.depth <= t.depth + 1;
        assert y in ts + [x];
      }
    }
  }

  /** While the links of `t` are being offered, `before` has been processed and everything issued stays sourced. */
  lemma OfferSearches(e: Env, before: seq<Target>, t: Target, p: Pending, u: Url)
    requires Offer(e, p, u, t.depth + 1, t.url).refused == 0
    requires HasLink(e, t.url, u)
    requires var ts := before + [t] + p.queue; Sourced(e, ts) && Names(ts, p.visited) && Closed(e, before, ts)
    ensures var p' := Offer(e, p, u, t.depth + 1, t.url); var ts' := before + [t] + p'.queue;
      Sourced(e, ts') && Names(ts', p'.visited) && Closed(e, before, ts')
  {
    OfferCases(e, p, u, t.depth + 1, t.url);
    hide Offer, Sourced, Names, Closed, Outgoing, HasLink, Crawlable;
    var p', ts := Offer(e, p, u, t.depth + 1, t.url), before + [t] + p.queue;
    if p'.queue != p.queue {
      var x := Target(u, e.g.keyOf(u), t.depth + 1, Some(t.url));
      assert before + [t] + (p.queue + [x]) == ts + [x];
      assert t == ts[|before|];
      AppendSourced(e, ts, x, t);
      AppendNames(ts, p.visited, x);
      ClosedGrows(e, before, ts, x);
    }
  }

  lemma AppendNames(ts: seq<Target>, keys: set<Url>, x: Target)
    requires Names(ts, keys) && x.key !in keys
    ensures Names(ts + [x], keys + {x.key})
  {
    E.ExtendKeys(ts, keys, x);
  }

  // ---- Offering all URLs of a page ----

  lemma {:induction false} OfferAllLevels(e: Env, done: seq<Target>, p: Pending, urls: seq<Url>, depth: nat,
      parent: Url)
    requires SortedByDepth(done + p.queue) && DepthAtMost(done + p.queue, depth)
    ensures var q := OfferAll(e, p, urls, depth, parent).queue;
      SortedByDepth(done + q) && DepthAtMost(done + q, depth)
  {
    hide Offer, SortedByDepth, DepthAtMost;
    if urls != [] {
      var front := urls[..|urls| - 1];
      OfferAllLevels(e, done, p, front, depth, parent);
      OfferLevels(e, done, OfferAll(e, p, front, depth, parent), urls[|urls| - 1], depth, parent);
    }
  }

  lemma {:induction false} OfferAllSearches(e: Env, before: seq<Target>, t: Target, p: Pending, urls: seq<Url>)
    requires OfferAll(e, p, urls, t.depth + 1, t.url).refused == 0
    requires forall u <- urls :: HasLink(e, t.url, u)
    requires var ts := before + [t] + p.queue; Sourced(e, ts) && Names(ts, p.visited) && Closed(e, before, ts)
    ensures var p' := OfferAll(e, p, urls, t.depth + 1, t.url); var ts' := before + [t] + p'.queue;
      Sourced(e, ts') && Names(ts', p'.visited) && Closed(e, before, ts')
  {
    hide Offer, Sourced, Names, Closed, Outgoing, HasLink;
    if urls != [] {
      var front, u := urls[..|urls| - 1], urls[|urls| - 1];
      var p1 := OfferAll(e, p, front, t.depth + 1, t.url);
      RefusedGrows(e, p1, u, t.depth + 1, t.url);
      assert forall v <- front :: v in urls;
      OfferAllSearches(e, before, t, p, front);
      assert u in urls;
      OfferSearches(e, before, t, p1, u);
    }
  }

  lemma RefusedGrows(e: Env, p: Pending, u: Url, depth: nat, parent: Url)
    ensures Offer(e, p, u, depth, parent).refused >= p.refused
    ensures Offer(e, p, u, depth, parent).visited >= p.visited
  {
    hide Decide;
  }

  /** Every permitted URL that was offered is visited afterwards. */
  lemma {:induction false} OfferAllClaims(e: Env, p: Pending, urls: seq<Url>, depth: nat, parent: Url)
    requires depth <= e.o.maxDepth
    ensures forall u <- urls :: Crawlable(e, u) ==> e.g.keyOf(u) in OfferAll(e, p, urls, depth, parent).visited
    ensures OfferAll(e, p, urls, depth, parent).visited >= p.visited
    ensures OfferAll(e, p, urls, depth, parent).refused >= p.refused
  {
    hide Offer, Crawlable;
    if urls != [] {
      var front, u := urls[..|urls| - 1], urls[|urls| - 1];
      OfferAllClaims(e, p, front, depth, parent);
      var p1 := OfferAll(e, p, front, depth, parent);
      if Crawlable(e, u) { OfferClaims(e, p1, u, depth, parent); }
      RefusedGrows(e, p1, u, depth, parent);
      assert forall v <- urls :: v in front || v == u;
    }
  }

  lemma OfferClaims(e: Env, p: Pending, u: Url, depth: nat, parent: Url)
    requires depth <= e.o.maxDepth && Crawlable(e, u)
    ensures e.g.keyOf(u) in Offer(e, p, u, depth, parent).visited
  {
    DecideMeaning(e.o, e.g, u, depth, p.visited);
    hide Objection;
  }

  // ---- Processing one target ----

  lemma VisitLevels(e: Env, done: seq<Target>, p: Pending)
    requires Levelled(done, p) && p.queue != []
    ensures Levelled(done + [p.queue[0]], Visit(e, p.(queue := p.queue[1..]), p.queue[0]))
  {
    var t, p1 := p.queue[0], p.(queue := p.queue[1..]);
    var done' := done + [t];
    assert done' + p1.queue == done + p.queue;
    hide Outgoing, HasLink, OfferAll;
    OfferAllLevels(e, done', p1, if t.depth < e.o.maxDepth then Outgoing(e, t.url) else [], t.depth + 1, t.url);
    var p' := Visit(e, p1, t);
    HeadBounds(done', p'.queue, |done|);
  }

  /** In a sorted list a bound one level below an earlier target is one level below any later one. */
  lemma HeadBounds(done: seq<Target>, q: seq<Target>, i: nat)
    requires i < |done| && SortedByDepth(done + q) && DepthAtMost(done + q, done[i].depth + 1)
    ensures q != [] ==> DepthAtMost(done + q, q[0].depth + 1)
  {
    if q != [] {
      var ts := done + q;
      assert ts[i] == done[i] && ts[|done|] == q[0];
    }
  }

  lemma VisitedMeansIssued(ts: seq<Target>, visited: set<Url>, k: Url, d: nat)
    requires Names(ts, visited) && k in visited && DepthAtMost(ts, d)
    ensures IssuedWithin(ts, k, d)
  {
    var i :| 0 <= i < |ts| && ts[i].key == k;
    assert ts[i] in ts;
  }

  lemma VisitCloses(e: Env, ts: seq<Target>, visited: set<Url>, t: Target)
    requires Names(ts, visited) && DepthAtMost(ts, t.depth + 1)
    requires t.depth < e.o.maxDepth ==> forall u :: HasLink(e, t.url, u) && Crawlable(e, u) ==> e.g.keyOf(u) in visited
    ensures ClosedAt(e, t, ts)
  {
    hide Names, DepthAtMost, Outgoing, HasLink, Crawlable;
    if t.depth < e.o.maxDepth {
      forall u | HasLink(e, t.url, u) && Crawlable(e, u) ensures IssuedWithin(ts, e.g.keyOf(u), t.depth + 1) {
        VisitedMeansIssued(ts, visited, e.g.keyOf(u), t.depth + 1);
      }
    }
  }

  lemma VisitSearches(e: Env, done: seq<Target>, p: Pending)
    requires Levelled(done, p) && p.queue != [] && Searching(e, done, p)
    requires Visit(e, p.(queue := p.queue[1..]), p.queue[0]).refused == 0
    ensures Searching(e, done + [p.queue[0]], Visit(e, p.(queue := p.queue[1..]), p.queue[0]))
  {
    hide Outgoing, HasLink, OfferAll, Sourced, Names, Closed, Crawlable, SortedByDepth, DepthAtMost;
    var t, p1 := p.queue[0], p.(queue := p.queue[1..]);
    var urls := if t.depth < e.o.maxDepth then Outgoing(e, t.url) else [];
    assert done + [t] + p1.queue == done + p.queue;
    var p' := Visit(e, p1, t);
    assert p' == OfferAll(e, p1, urls, t.depth + 1, t.url);
    hide Visit;
    OutgoingIsLinks(e, t.url);
    OfferAllSearches(e, done, t, p1, urls);
    OfferAllLevels(e, done + [t], p1, urls, t.depth + 1, t.url);
    VisitClosesHead(e, p1, t, done + [t] + p'.queue, p');
    CloseOneMore(e, done, t, done + [t] + p'.queue);
  }

  lemma VisitClosesHead(e: Env, p: Pending, t: Target, ts: seq<Target>, p': Pending)
    requires p' == OfferAll(e, p, if t.depth < e.o.maxDepth then Outgoing(e, t.url) else [], t.depth + 1, t.url)
    requires Names(ts, p'.visited) && DepthAtMost(ts, t.depth + 1)
    ensures ClosedAt(e, t, ts)
  {
    hide Outgoing, HasLink, OfferAll, Names, DepthAtMost, Crawlable;
    if t.depth < e.o.maxDepth {
      OfferAllClaims(e, p, Outgoing(e, t.url), t.depth + 1, t.url);
      OutgoingIsLinks(e, t.url);
    }
    VisitCloses(e, ts, p'.visited, t);
  }

  lemma CloseOneMore(e: Env, done: seq<Target>, t: Target, ts: seq<Target>)
    requires Closed(e, done, ts) && ClosedAt(e, t, ts)
    ensures Closed(e, done + [t], ts)
  {
    hide ClosedAt;
  }

  lemma BeginInvariant(e: Env)
    requires Begin(e).Ok?
    ensures Invariant(e, [], Begin(e).value)
  {
    DecideMeaning(e.o, e.g, e.seed, 0, {});
    hide Objection;
    var p := Begin(e).value;
    assert [] + p.queue == [Seed(e)];
    assert [Seed(e)][0].key == Seed(e).key;
  }

  lemma VisitInvariant(e: Env, done: seq<Target>, p: Pending)
    requires Invariant(e, done, p) && p.queue != []
    ensures Invariant(e, done + [p.queue[0]], Visit(e, p.(queue := p.queue[1..]), p.queue[0]))
  {
    var t, p1 := p.queue[0], p.(queue := p.queue[1..]);
    VisitLevels(e, done, p);
    VisitNeverForgets(e, p1, t);
    if Visit(e, p1, t).refused == 0 {
      VisitSearches(e, done, p);
    }
    hide Visit, Levelled, Searching;
  }

  lemma VisitNeverForgets(e: Env, p: Pending, t: Target)
    ensures Visit(e, p, t).refused >= p.refused
  {
    hide Outgoing, HasLink, OfferAll;
    if t.depth < e.o.maxDepth {
      OfferAllClaims(e, p, Outgoing(e, t.url), t.depth + 1, t.url);
    } else {
      assert OfferAll(e, p, [], t.depth + 1, t.url) == p by { OfferNothing(e, p, t.depth + 1, t.url); }
    }
  }

  lemma OfferNothing(e: Env, p: Pending, depth: nat, parent: Url)
    ensures OfferAll(e, p, [], depth, parent) == p
  {
  }

  /** The invariant holds when the crawl stops, and it stops at the page limit or with an empty queue. */
  lemma {:induction false} CrawlInvariant(e: Env, p: Pending, done: seq<Target>)
    requires Invariant(e, done, p)
    ensures var (p', done') := Crawl(e, p, done);
      Invariant(e, done', p') && done <= done' && (|done'| >= e.o.limit || p'.queue == [])
    decreases e.o.limit - |done|
  {
    hide Invariant, Visit;
    if |done| < e.o.limit && p.queue != [] {
      VisitInvariant(e, done, p);
      CrawlInvariant(e, Visit(e, p.(queue := p.queue[1..]), p.queue[0]), done + [p.queue[0]]);
    }
  }

  // ---- Shortest paths ----

  /** One discovery from class `a` to class `b`, on the page that was issued for `a`. */
  ghost predicate Link(e: Env, ts: seq<Target>, a: Url, b: Url) {
    exists t, u :: t in ts && t.key == a && HasLink(e, t.url, u) && Crawlable(e, u) && e.g.keyOf(u) == b
  }

  /** A discovery path, given by its classes. */
  ghost predicate Walk(e: Env, ts: seq<Target>, path: seq<Url>) {
    && path != [] && path[0] == e.g.keyOf(e.seed)
    && forall i :: 0 < i < |path| ==> Link(e, ts, path[i - 1], path[i])
  }

  /** Either the class at the end of the path was issued at most that deep, or the search has not got that far. */
  lemma {:induction false} WalkReaches(e: Env, done: seq<Target>, p: Pending, path: seq<Url>)
    requires Levelled(done, p) && Searching(e, done, p) && Walk(e, done + p.queue, path)
    ensures var n := |path| - 1;
      || IssuedWithin(done + p.queue, path[n], n)
      || n > e.o.maxDepth
      || (p.queue != [] && p.queue[0].depth < n)
  {
    var ts, n := done + p.queue, |path| - 1;
    WalkParts(e, ts, path);
    SeedIssued(e, done, p);
    hide *;
    if n > 0 {
      WalkReaches(e, done, p, path[..n]);
      if IssuedWithin(ts, path[n - 1], n - 1) && n <= e.o.maxDepth {
        StepReaches(e, done, p, path[n - 1], path[n], n - 1);
      }
    }
  }

  lemma WalkParts(e: Env, ts: seq<Target>, path: seq<Url>)
    requires Walk(e, ts, path)
    ensures path != [] && path[0] == e.g.keyOf(e.seed)
    ensures var n := |path| - 1;
      n > 0 ==> Walk(e, ts, path[..n]) && Link(e, ts, path[n - 1], path[n])
  {
    hide Link;
  }

  lemma SeedIssued(e: Env, done: seq<Target>, p: Pending)
    requires Searching(e, done, p)
    ensures IssuedWithin(done + p.queue, e.g.keyOf(e.seed), 0)
  {
    var ts := done + p.queue;
    assert ts[0] == Seed(e) && ts[0] in ts;
    hide Names, Closed, HasSource, Crawlable;
  }

  lemma SameKeySameTarget(ts: seq<Target>, visited: set<Url>, x: Target, y: Target)
    requires Names(ts, visited) && x in ts && y in ts && x.key == y.key
    ensures x == y
  {
  }

  lemma StepReaches(e: Env, done: seq<Target>, p: Pending, a: Url, b: Url, n: nat)
    requires Levelled(done, p) && Searching(e, done, p) && Link(e, done + p.queue, a, b)
    requires IssuedWithin(done + p.queue, a, n) && n < e.o.maxDepth
    ensures IssuedWithin(done + p.queue, b, n + 1) || (p.queue != [] && p.queue[0].depth < n + 1)
  {
    hide Sourced, Names, Outgoing, HasLink, Crawlable, DepthAtMost;
    var ts := done + p.queue;
    var t, u :| t in ts && t.key == a && HasLink(e, t.url, u) && Crawlable(e, u) && e.g.keyOf(u) == b;
    var x :| x in ts && x.key == a && x.depth <= n;
    SameKeySameTarget(ts, p.visited, x, t);
    if t in done {
      assert ClosedAt(e, t, ts);
      var y :| y in ts && y.key == b && y.depth <= t.depth + 1;
      assert IssuedWithin(ts, b, n + 1);
    } else {
      var i :| 0 <= i < |ts| && ts[i] == t;
      assert i >= |done| && ts[|done|] == p.queue[0];
    }
  }

  /** No discovery path to the class of an issued target is shorter than its recorded depth. */
  lemma DepthIsLeast(e: Env, done: seq<Target>, p: Pending, t: Target, path: seq<Url>)
    requires Levelled(done, p) && Searching(e, done, p) && t in done + p.queue
    requires Walk(e, done + p.queue, path) && path[|path| - 1] == t.key
    ensures t.depth <= |path| - 1
  {
    var ts, n := done + p.queue, |path| - 1;
    WalkReaches(e, done, p, path);
    hide Walk, Names, Closed;
    if IssuedWithin(ts, path[n], n) {
      var x :| x in ts && x.key == path[n] && x.depth <= n;
      SameKeySameTarget(ts, p.visited, x, t);
    }
  }

  lemma ExtendWalk(e: Env, ts: seq<Target>, path: seq<Url>, parent: Target, t: Target)
    requires Walk(e, ts, path) && path[|path| - 1] == parent.key
    requires parent in ts && FoundOn(e, t, parent) && t.key == e.g.keyOf(t.url) && Crawlable(e, t.url)
    ensures Walk(e, ts, path + [t.key])
  {
    hide Outgoing, HasLink, Crawlable;
    assert Link(e, ts, parent.key, t.key);
    hide Link;
  }

  /** Every issued target has a discovery path of exactly its recorded depth. */
  lemma {:induction false} WalkTo(e: Env, ts: seq<Target>, i: nat) returns (path: seq<Url>)
    requires Sourced(e, ts) && i < |ts|
    ensures Walk(e, ts, path) && path[|path| - 1] == ts[i].key && |path| - 1 == ts[i].depth
    decreases i
  {
    assert ts[i] in ts;
    if i == 0 {
      path := [ts[0].key];
    } else {
      hide Outgoing, HasLink, Crawlable, Walk;
      assert HasSource(e, ts, i);
      var j :| 0 <= j < i && FoundOn(e, ts[i], ts[j]);
      path := WalkTo(e, ts, j);
      assert ts[j] in ts;
      ExtendWalk(e, ts, path, ts[j], ts[i]);
      path := path + [ts[i].key];
    }
  }
}
