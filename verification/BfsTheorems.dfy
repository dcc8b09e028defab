/** What a crawl by one worker has done when it stops, for every site and every configuration. */
module BfsTheorems {
  import opened Prelude
  import opened Dedupe
  import opened Filters
  import opened SingleWorker
  import opened SiteGraph
  import opened Bfs

  ghost predicate ProcessedClass(done: seq<Target>, k: Url) { exists t :: t in done && t.key == k }

  /** Targets are processed in nondecreasing depth, whether or not pushes were refused or the page limit was hit. */
  lemma ProcessedInDepthOrder(e: Env)
    requires Begin(e).Ok?
    ensures SortedByDepth(Crawl(e, Begin(e).value, []).1)
  {
    var (p, done) := Crawl(e, Begin(e).value, []);
    BeginInvariant(e);
    CrawlInvariant(e, Begin(e).value, []);
    hide Begin, Crawl, Searching;
    assert forall i :: 0 <= i < |done| ==> (done + p.queue)[i] == done[i];
  }

  /** Unless a push was refused, each target's depth is the length of a shortest discovery path to its class. */
  lemma DepthIsDistance(e: Env, t: Target)
    requires Begin(e).Ok? && Crawl(e, Begin(e).value, []).0.refused == 0
    requires t in Crawl(e, Begin(e).value, []).1
    ensures var (p, done) := Crawl(e, Begin(e).value, []); var ts := done + p.queue;
      && (exists path :: Walk(e, ts, path) && path[|path| - 1] == t.key && |path| - 1 == t.depth)
      && (forall path :: Walk(e, ts, path) && path[|path| - 1] == t.key ==> t.depth <= |path| - 1)
  {
    var (p, done) := Crawl(e, Begin(e).value, []);
    BeginInvariant(e);
    CrawlInvariant(e, Begin(e).value, []);
    hide Begin, Crawl, Walk, Invariant;
    DistanceIn(e, done, p, t);
  }

  lemma DistanceIn(e: Env, done: seq<Target>, p: Pending, t: Target)
    requires Invariant(e, done, p) && p.refused == 0 && t in done
    ensures exists path :: Walk(e, done + p.queue, path) && path[|path| - 1] == t.key && |path| - 1 == t.depth
    ensures forall path :: Walk(e, done + p.queue, path) && path[|path| - 1] == t.key ==> t.depth <= |path| - 1
  {
    var ts := done + p.queue;
    assert forall path' :: Walk(e, ts, path') ==> path' != [];
    hide Walk, Levelled, Sourced, Names, Closed;
    var i :| 0 <= i < |done| && done[i] == t;
    assert ts[i] == t;
    var path := WalkTo(e, ts, i);
    forall path' | Walk(e, ts, path') && path'[|path'| - 1] == t.key ensures t.depth <= |path'| - 1 {
      DepthIsLeast(e, done, p, t, path');
    }
  }

  /** A crawl that ends below its page limit without a refused push has processed exactly the classes in reach. */
  lemma ProcessedIsReachable(e: Env, k: Url)
    requires Begin(e).Ok? && Crawl(e, Begin(e).value, []).0.refused == 0
    requires |Crawl(e, Begin(e).value, []).1| < e.o.limit
    ensures var done := Crawl(e, Begin(e).value, []).1;
      ProcessedClass(done, k)
      <==> exists path :: Walk(e, done, path) && path[|path| - 1] == k && |path| - 1 <= e.o.maxDepth
  {
    var (p, done) := Crawl(e, Begin(e).value, []);
    BeginInvariant(e);
    CrawlInvariant(e, Begin(e).value, []);
    hide Begin, Crawl, Walk, Levelled, Names, Closed;
    assert done + p.queue == done;
    if ProcessedClass(done, k) {
      var i :| 0 <= i < |done| && done[i].key == k;
      assert done[i] in done;
      var path := WalkTo(e, done, i);
    }
    forall path | Walk(e, done, path) && path[|path| - 1] == k && |path| - 1 <= e.o.maxDepth
      ensures ProcessedClass(done, k)
    {
      WalkReaches(e, done, p, path);
    }
  }

  // ---- The site's own graph ----

  /** One discovery from class `a` to class `b`, on any URL of class `a`. */
  ghost predicate SiteLink(e: Env, a: Url, b: Url) {
    exists u, v :: e.g.keyOf(u) == a && HasLink(e, u, v) && Crawlable(e, v) && e.g.keyOf(v) == b
  }

  ghost predicate SitePath(e: Env, path: seq<Url>) {
    && path != [] && path[0] == e.g.keyOf(e.seed)
    && forall i :: 0 < i < |path| ==> SiteLink(e, path[i - 1], path[i])
  }

  /** URLs of one class lead to the same classes, up to links back to the class itself. */
  ghost predicate Consistent(e: Env) {
    forall u, u', v :: e.g.keyOf(u) == e.g.keyOf(u') && HasLink(e, u, v) && Crawlable(e, v)
      ==> e.g.keyOf(v) == e.g.keyOf(u') || LeadsTo(e, u', e.g.keyOf(v))
  }

  ghost predicate LeadsTo(e: Env, u: Url, k: Url) {
    exists v :: HasLink(e, u, v) && Crawlable(e, v) && e.g.keyOf(v) == k
  }

  lemma {:induction false} SitePathReached(e: Env, done: seq<Target>, path: seq<Url>)
    requires Consistent(e) && SitePath(e, path) && |path| - 1 <= e.o.maxDepth
    requires Sourced(e, done) && Closed(e, done, done)
    ensures IssuedWithin(done, path[|path| - 1], |path| - 1)
  {
    hide Consistent, SiteLink, Closed;
    var n := |path| - 1;
    if n == 0 {
      SeedReached(e, done);
    } else {
      hide Sourced;
      assert SitePath(e, path[..n]) && SiteLink(e, path[n - 1], path[n]);
      hide SitePath, IssuedWithin;
      SitePathReached(e, done, path[..n]);
      SiteStep(e, done, path[n - 1], path[n], n - 1);
    }
  }

  lemma SeedReached(e: Env, done: seq<Target>)
    requires Sourced(e, done)
    ensures IssuedWithin(done, e.g.keyOf(e.seed), 0)
  {
    assert done[0] == Seed(e) && done[0] in done;
  }

  /** The page of any target of class `a` leads to every class that `a` leads to. */
  lemma SiteStepFrom(e: Env, ts: seq<Target>, t: Target, b: Url)
    requires Consistent(e) && SiteLink(e, t.key, b) && t.key == e.g.keyOf(t.url)
    requires t in ts && ClosedAt(e, t, ts) && t.depth < e.o.maxDepth
    ensures IssuedWithin(ts, b, t.depth + 1)
  {
    hide Outgoing, HasLink, Crawlable, IssuedWithin;
    var u, v :| e.g.keyOf(u) == t.key && HasLink(e, u, v) && Crawlable(e, v) && e.g.keyOf(v) == b;
    if b == t.key {
      IssuedDeeper(ts, t, t.depth + 1);
    } else {
      assert LeadsTo(e, t.url, b);
    }
  }

  lemma IssuedDeeper(ts: seq<Target>, t: Target, d: nat)
    requires t in ts && t.depth <= d
    ensures IssuedWithin(ts, t.key, d)
  {
  }

  lemma Deeper(ts: seq<Target>, k: Url, d: nat, d': nat)
    requires IssuedWithin(ts, k, d) && d <= d'
    ensures IssuedWithin(ts, k, d')
  {
  }

  lemma SiteStep(e: Env, done: seq<Target>, a: Url, b: Url, n: nat)
    requires Consistent(e) && SiteLink(e, a, b) && Sourced(e, done) && Closed(e, done, done)
    requires IssuedWithin(done, a, n) && n < e.o.maxDepth
    ensures IssuedWithin(done, b, n + 1)
  {
    hide Consistent, SiteLink, ClosedAt, Crawlable, HasSource;
    var t :| t in done && t.key == a && t.depth <= n;
    SiteStepFrom(e, done, t, b);
    Deeper(done, b, t.depth + 1, n + 1);
  }

  lemma WalkIsSitePath(e: Env, done: seq<Target>, path: seq<Url>)
    requires Walk(e, done, path) && Sourced(e, done)
    ensures SitePath(e, path)
  {
    hide Outgoing, HasLink, Crawlable, HasSource;
    forall i | 0 < i < |path| ensures SiteLink(e, path[i - 1], path[i]) {
      assert Link(e, done, path[i - 1], path[i]);
    }
  }

  /** For a consistent site, the classes processed are exactly those within `maxDepth` links of the seed. */
  lemma CompleteSearch(e: Env, k: Url)
    requires Begin(e).Ok? && Consistent(e) && Crawl(e, Begin(e).value, []).0.refused == 0
    requires |Crawl(e, Begin(e).value, []).1| < e.o.limit
    ensures ProcessedClass(Crawl(e, Begin(e).value, []).1, k)
       <==> exists path :: SitePath(e, path) && path[|path| - 1] == k && |path| - 1 <= e.o.maxDepth
  {
    var (p, done) := Crawl(e, Begin(e).value, []);
    BeginInvariant(e);
    CrawlInvariant(e, Begin(e).value, []);
    ProcessedIsReachable(e, k);
    hide Begin, Crawl, Walk, SitePath, Levelled, Names, Closed, Sourced, Consistent;
    assert done + p.queue == done;
    if ProcessedClass(done, k) {
      var path :| Walk(e, done, path) && path[|path| - 1] == k && |path| - 1 <= e.o.maxDepth;
      WalkIsSitePath(e, done, path);
    }
    forall path | SitePath(e, path) && path[|path| - 1] == k && |path| - 1 <= e.o.maxDepth
      ensures ProcessedClass(done, k)
    {
      SitePathReached(e, done, path);
    }
  }

  lemma SiteStepReaches(e: Env, done: seq<Target>, p: Pending, a: Url, b: Url, n: nat)
    requires Consistent(e) && SiteLink(e, a, b) && Levelled(done, p) && Searching(e, done, p)
    requires IssuedWithin(done + p.queue, a, n) && n < e.o.maxDepth
    ensures IssuedWithin(done + p.queue, b, n + 1) || (p.queue != [] && p.queue[0].depth < n + 1)
  {
    hide Consistent, SiteLink, ClosedAt, Crawlable, HasSource, Names, DepthAtMost;
    var ts := done + p.queue;
    var t :| t in ts && t.key == a && t.depth <= n;
    if t in done {
      SiteStepFrom(e, ts, t, b);
      Deeper(ts, b, t.depth + 1, n + 1);
    } else {
      var i :| 0 <= i < |ts| && ts[i] == t;
      assert i >= |done| && ts[|done|] == p.queue[0];
    }
  }

  /** Either the class at the end of a site path was issued at most that deep, or the search has not got that far. */
  lemma {:induction false} SitePathReaches(e: Env, done: seq<Target>, p: Pending, path: seq<Url>)
    requires Consistent(e) && Levelled(done, p) && Searching(e, done, p) && SitePath(e, path)
    ensures var n := |path| - 1;
      || IssuedWithin(done + p.queue, path[n], n)
      || n > e.o.maxDepth
      || (p.queue != [] && p.queue[0].depth < n)
  {
    var ts, n := done + p.queue, |path| - 1;
    hide Consistent, SiteLink, Closed, Names, Levelled;
    if n == 0 {
      SeedReached(e, ts);
    } else {
      hide Sourced;
      assert SitePath(e, path[..n]) && SiteLink(e, path[n - 1], path[n]);
      hide SitePath, IssuedWithin;
      SitePathReaches(e, done, p, path[..n]);
      if IssuedWithin(ts, path[n - 1], n - 1) && n <= e.o.maxDepth {
        SiteStepReaches(e, done, p, path[n - 1], path[n], n - 1);
      }
    }
  }

  lemma SiteDistanceIn(e: Env, done: seq<Target>, p: Pending, t: Target, path: seq<Url>)
    requires Consistent(e) && Levelled(done, p) && Searching(e, done, p) && t in done
    requires SitePath(e, path) && path[|path| - 1] == t.key
    ensures t.depth <= |path| - 1
  {
    var ts, n := done + p.queue, |path| - 1;
    SitePathReaches(e, done, p, path);
    var i :| 0 <= i < |done| && done[i] == t;
    assert ts[i] == t && t in ts;
    assert p.queue != [] ==> ts[|done|] == p.queue[0];
    hide SitePath, Consistent, Closed, HasSource, DepthAtMost;
    if IssuedWithin(ts, path[n], n) {
      var x :| x in ts && x.key == path[n] && x.depth <= n;
      hide Sourced;
      SameKeySameTarget(ts, p.visited, x, t);
    }
    hide Names;
  }

  /**
   For a consistent site, and unless a push was refused, the depth of every target processed is the length of a
   shortest path of links from the seed to its class, even if the page limit cut the crawl short.
   */
  lemma DepthIsSiteDistance(e: Env, t: Target)
    requires Begin(e).Ok? && Consistent(e) && Crawl(e, Begin(e).value, []).0.refused == 0
    requires t in Crawl(e, Begin(e).value, []).1
    ensures exists path :: SitePath(e, path) && path[|path| - 1] == t.key && |path| - 1 == t.depth
    ensures forall path :: SitePath(e, path) && path[|path| - 1] == t.key ==> t.depth <= |path| - 1
  {
    var (p, done) := Crawl(e, Begin(e).value, []);
    BeginInvariant(e);
    CrawlInvariant(e, Begin(e).value, []);
    DepthIsDistance(e, t);
    hide Begin, Crawl, Walk, SitePath, Consistent, Levelled, Names, Closed, Sourced;
    var path :| Walk(e, done + p.queue, path) && path[|path| - 1] == t.key && |path| - 1 == t.depth;
    WalkIsSitePath(e, done + p.queue, path);
    forall path' | SitePath(e, path') && path'[|path'| - 1] == t.key ensures t.depth <= |path'| - 1 {
      SiteDistanceIn(e, done, p, t, path');
    }
  }

  // ---- When a crawl is sure to be complete ----

  /** `universe` holds the seed's class and every permitted class discovered from its members. */
  ghost predicate Covers(e: Env, universe: set<Url>) {
    && e.g.keyOf(e.seed) in universe
    && forall u, v :: e.g.keyOf(u) in universe && HasLink(e, u, v) && Crawlable(e, v) ==> e.g.keyOf(v) in universe
  }

  /** Nothing refused, all of it inside the universe, and one class for each target issued. */
  ghost predicate Roomy(e: Env, universe: set<Url>, done: seq<Target>, p: Pending) {
    && p.refused == 0 && p.visited <= universe
    && |done| + |p.queue| == |p.visited|
    && (forall t <- p.queue :: e.g.keyOf(t.url) in universe)
  }

  lemma SubsetIsSmaller(a: set<Url>, b: set<Url>)
    requires a <= b
    ensures |a| <= |b|
  {
    assert a + (b - a) == b;
  }

  lemma OfferIsRoomy(e: Env, universe: set<Url>, done: seq<Target>, p: Pending, u: Url, depth: nat, parent: Url)
    requires Roomy(e, universe, done, p) && |universe| <= e.o.maxFrontierSize
    requires Crawlable(e, u) ==> e.g.keyOf(u) in universe
    ensures Roomy(e, universe, done, Offer(e, p, u, depth, parent))
  {
    DecideMeaning(e.o, e.g, u, depth, p.visited);
    hide Objection;
    var k := e.g.keyOf(u);
    if k !in p.visited && k in universe {
      SubsetIsSmaller(p.visited + {k}, universe);
      assert |p.visited + {k}| == |p.visited| + 1;
    }
    hide Permitted, Decide;
    var d := Decide(e.o, e.g, u, depth, p.visited);
    var p' := Offer(e, p, u, depth, parent);
    if d.Allowed? {
      KeyOfDecision(e, u, depth, p.visited);
      assert |p.queue| < e.o.maxFrontierSize;
      assert p'.queue == p.queue + [Target(u, d.key, depth, Some(parent))];
    }
  }

  lemma KeyOfDecision(e: Env, u: Url, depth: nat, visited: set<Url>)
    requires Decide(e.o, e.g, u, depth, visited).Allowed?
    ensures Decide(e.o, e.g, u, depth, visited).key == e.g.keyOf(u)
  {
    hide Objection;
  }

  lemma {:induction false} OfferAllIsRoomy(
      e: Env, universe: set<Url>, done: seq<Target>, p: Pending, urls: seq<Url>, depth: nat, parent: Url)
    requires Roomy(e, universe, done, p) && |universe| <= e.o.maxFrontierSize
    requires forall u <- urls :: Crawlable(e, u) ==> e.g.keyOf(u) in universe
    ensures Roomy(e, universe, done, OfferAll(e, p, urls, depth, parent))
  {
    hide Offer, Roomy, Crawlable;
    if urls != [] {
      var front := urls[..|urls| - 1];
      assert forall u <- front :: u in urls;
      OfferAllIsRoomy(e, universe, done, p, front, depth, parent);
      OfferIsRoomy(e, universe, done, OfferAll(e, p, front, depth, parent), urls[|urls| - 1], depth, parent);
    }
  }

  lemma VisitIsRoomy(e: Env, universe: set<Url>, done: seq<Target>, p: Pending)
    requires Covers(e, universe) && Roomy(e, universe, done, p) && |universe| <= e.o.maxFrontierSize && p.queue != []
    ensures Roomy(e, universe, done + [p.queue[0]], Visit(e, p.(queue := p.queue[1..]), p.queue[0]))
  {
    hide Outgoing, HasLink, OfferAll, Crawlable;
    var t, p1 := p.queue[0], p.(queue := p.queue[1..]);
    assert Roomy(e, universe, done + [t], p1);
    assert e.g.keyOf(t.url) in universe;
    hide Roomy;
    var urls := if t.depth < e.o.maxDepth then Outgoing(e, t.url) else [];
    OutgoingIsLinks(e, t.url);
    OfferAllIsRoomy(e, universe, done + [t], p1, urls, t.depth + 1, t.url);
  }

  lemma {:induction false} CrawlIsRoomy(e: Env, universe: set<Url>, p: Pending, done: seq<Target>)
    requires Covers(e, universe) && Roomy(e, universe, done, p) && |universe| <= e.o.maxFrontierSize
    ensures var (p', done') := Crawl(e, p, done); Roomy(e, universe, done', p')
    decreases e.o.limit - |done|
  {
    hide Covers, Roomy, Visit;
    if |done| < e.o.limit && p.queue != [] {
      VisitIsRoomy(e, universe, done, p);
      CrawlIsRoomy(e, universe, Visit(e, p.(queue := p.queue[1..]), p.queue[0]), done + [p.queue[0]]);
    }
  }

  /** Enough capacity and a high enough page limit for the whole site rule out refused pushes and early stops. */
  lemma LargeEnoughCrawlIsComplete(e: Env, universe: set<Url>)
    requires Begin(e).Ok? && Covers(e, universe)
    requires |universe| <= e.o.maxFrontierSize && |universe| < e.o.limit
    ensures var (p, done) := Crawl(e, Begin(e).value, []);
      p.refused == 0 && |done| < e.o.limit && p.queue == []
  {
    var p0 := Begin(e).value;
    assert Roomy(e, universe, [], p0) by {
      DecideMeaning(e.o, e.g, e.seed, 0, {});
      hide Objection, Permitted, Outgoing, HasLink;
    }
    BeginInvariant(e);
    hide Begin, Covers;
    CrawlIsRoomy(e, universe, p0, []);
    CrawlInvariant(e, p0, []);
    hide Crawl, Invariant;
    SubsetIsSmaller(Crawl(e, p0, []).0.visited, universe);
  }
}
