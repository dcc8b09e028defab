/**
 What a crawl by one worker has claimed and processed, whatever the limits: told by the links of the site, and true
 even when pushes were refused or the page limit cut the crawl short.
 */
module CrawlLaws {
  import opened Prelude
  import opened Dedupe
  import opened Filters
  import opened SingleWorker
  import opened SiteGraph
  import opened Bfs
  import E = ExactlyOnce

  /** A page above the depth limit has a link, to a URL of this class that belongs to the crawl. */
  ghost predicate LinkedFrom(e: Env, t: Target, k: Url) {
    t.depth < e.o.maxDepth && exists u :: HasLink(e, t.url, u) && Crawlable(e, u) && e.g.keyOf(u) == k
  }

  /** The class is the seed's, or some processed page links to it. */
  ghost predicate Discovered(e: Env, done: seq<Target>, k: Url) {
    k == e.g.keyOf(e.seed) || exists t :: t in done && LinkedFrom(e, t, k)
  }

  /** The targets have pairwise different classes, all of them claimed. */
  ghost predicate Claimed(ts: seq<Target>, visited: set<Url>) {
    E.DistinctKeys(ts) && forall t <- ts :: t.key in visited
  }

  /** Holds at every point of the crawl. */
  ghost predicate Explains(e: Env, done: seq<Target>, p: Pending) {
    && Sourced(e, done + p.queue)
    && Claimed(done + p.queue, p.visited)
    && forall k :: k in p.visited <==> Discovered(e, done, k)
  }

  // ---- Offering the links of one page ----

  lemma AppendClaimed(ts: seq<Target>, visited: set<Url>, x: Target)
    requires Claimed(ts, visited) && x.key !in visited
    ensures Claimed(ts + [x], visited + {x.key})
  {
    assert forall i :: 0 <= i < |ts| ==> ts[i] in ts;
  }

  lemma MoreClaimed(ts: seq<Target>, visited: set<Url>, visited': set<Url>)
    requires Claimed(ts, visited) && visited <= visited'
    ensures Claimed(ts, visited')
  {
    hide E.DistinctKeys;
  }

  lemma OfferExplains(e: Env, before: seq<Target>, t: Target, p: Pending, u: Url)
    requires HasLink(e, t.url, u)
    requires var ts := before + [t] + p.queue; Sourced(e, ts) && Claimed(ts, p.visited)
    ensures var p' := Offer(e, p, u, t.depth + 1, t.url); var ts' := before + [t] + p'.queue;
      Sourced(e, ts') && Claimed(ts', p'.visited)
  {
    OfferCases(e, p, u, t.depth + 1, t.url);
    RefusedGrows(e, p, u, t.depth + 1, t.url);
    hide Offer, Sourced, Claimed, HasLink, Crawlable;
    var p', ts := Offer(e, p, u, t.depth + 1, t.url), before + [t] + p.queue;
    if p'.queue == p.queue {
      MoreClaimed(ts, p.visited, p'.visited);
    } else {
      var x := Target(u, e.g.keyOf(u), t.depth + 1, Some(t.url));
      assert before + [t] + (p.queue + [x]) == ts + [x];
      assert t == ts[|before|];
      AppendSourced(e, ts, x, t);
      AppendClaimed(ts, p.visited, x);
    }
  }

  lemma {:induction false} OfferAllExplains(e: Env, before: seq<Target>, t: Target, p: Pending, urls: seq<Url>)
    requires forall u <- urls :: HasLink(e, t.url, u)
    requires var ts := before + [t] + p.queue; Sourced(e, ts) && Claimed(ts, p.visited)
    ensures var p' := OfferAll(e, p, urls, t.depth + 1, t.url); var ts' := before + [t] + p'.queue;
      Sourced(e, ts') && Claimed(ts', p'.visited)
  {
    hide Offer, Sourced, Claimed, HasLink;
    if urls != [] {
      var front, u := urls[..|urls| - 1], urls[|urls| - 1];
      assert u in urls && forall v <- front :: v in urls;
      OfferAllExplains(e, before, t, p, front);
      OfferExplains(e, before, t, OfferAll(e, p, front, t.depth + 1, t.url), u);
    }
  }

  /** One of the URLs belongs to the crawl and to this class. */
  ghost predicate Among(e: Env, urls: seq<Url>, k: Url) {
    exists u :: u in urls && Crawlable(e, u) && e.g.keyOf(u) == k
  }

  lemma AmongLast(e: Env, urls: seq<Url>, k: Url)
    requires urls != []
    ensures var last := urls[|urls| - 1];
      Among(e, urls, k) <==> Among(e, urls[..|urls| - 1], k) || (Crawlable(e, last) && e.g.keyOf(last) == k)
  {
    var init, last := urls[..|urls| - 1], urls[|urls| - 1];
    hide Crawlable;
    assert urls == init + [last];
    if Among(e, init, k) {
      var u :| u in init && Crawlable(e, u) && e.g.keyOf(u) == k;
      assert u in urls;
    }
    assert last in urls;
  }

  lemma OfferClaimsKey(e: Env, p: Pending, u: Url, depth: nat, parent: Url)
    requires depth <= e.o.maxDepth
    ensures Offer(e, p, u, depth, parent).visited == p.visited + if Crawlable(e, u) then {e.g.keyOf(u)} else {}
  {
    DecideMeaning(e.o, e.g, u, depth, p.visited);
    hide Objection;
  }

  /** Exactly the classes of the URLs that belong to the crawl are claimed, refused or not. */
  lemma {:induction false} OfferAllClaimsKeys(e: Env, p: Pending, urls: seq<Url>, depth: nat, parent: Url, k: Url)
    requires depth <= e.o.maxDepth
    ensures k in OfferAll(e, p, urls, depth, parent).visited <==> k in p.visited || Among(e, urls, k)
  {
    hide Offer, Crawlable;
    if urls != [] {
      var front := urls[..|urls| - 1];
      OfferAllClaimsKeys(e, p, front, depth, parent, k);
      OfferClaimsKey(e, OfferAll(e, p, front, depth, parent), urls[|urls| - 1], depth, parent);
      AmongLast(e, urls, k);
      hide Among;
    }
  }

  // ---- Processing one target ----

  lemma DiscoveredLast(e: Env, done: seq<Target>, t: Target, k: Url)
    ensures Discovered(e, done + [t], k) <==> Discovered(e, done, k) || LinkedFrom(e, t, k)
  {
    hide LinkedFrom;
    assert t in done + [t] && forall x <- done :: x in done + [t];
  }

  lemma VisitClaims(e: Env, p: Pending, t: Target, k: Url)
    ensures k in Visit(e, p, t).visited <==> k in p.visited || LinkedFrom(e, t, k)
  {
    hide OfferAll, Outgoing, Crawlable;
    OutgoingIsLinks(e, t.url);
    hide HasLink;
    if t.depth < e.o.maxDepth {
      OfferAllClaimsKeys(e, p, Outgoing(e, t.url), t.depth + 1, t.url, k);
    } else {
      OfferNothing(e, p, t.depth + 1, t.url);
    }
  }

  lemma VisitExplains(e: Env, done: seq<Target>, p: Pending)
    requires Explains(e, done, p) && p.queue != []
    ensures Explains(e, done + [p.queue[0]], Visit(e, p.(queue := p.queue[1..]), p.queue[0]))
  {
    var t, p1 := p.queue[0], p.(queue := p.queue[1..]);
    var urls := if t.depth < e.o.maxDepth then Outgoing(e, t.url) else [];
    OutgoingIsLinks(e, t.url);
    hide Outgoing, HasLink, OfferAll, Sourced, Claimed, Discovered;
    assert done + [t] + p1.queue == done + p.queue;
    OfferAllExplains(e, done, t, p1, urls);
    forall k ensures k in Visit(e, p1, t).visited <==> Discovered(e, done + [t], k) {
      hide Visit;
      VisitClaims(e, p1, t, k);
      DiscoveredLast(e, done, t, k);
    }
  }

  lemma BeginExplains(e: Env)
    requires Begin(e).Ok?
    ensures Explains(e, [], Begin(e).value)
  {
    DecideMeaning(e.o, e.g, e.seed, 0, {});
    hide Objection, LinkedFrom;
    assert [] + Begin(e).value.queue == [Seed(e)];
  }

  lemma {:induction false} CrawlExplains(e: Env, p: Pending, done: seq<Target>)
    requires Explains(e, done, p) && |done| <= e.o.limit
    ensures var (p', done') := Crawl(e, p, done);
      Explains(e, done', p') && |done'| <= e.o.limit && (|done'| < e.o.limit ==> p'.queue == [])
    decreases e.o.limit - |done|
  {
    hide Explains, Visit;
    if |done| < e.o.limit && p.queue != [] {
      VisitExplains(e, done, p);
      CrawlExplains(e, Visit(e, p.(queue := p.queue[1..]), p.queue[0]), done + [p.queue[0]]);
    }
  }

  // ---- The laws ----

  /** A crawl starts if and only if the seed belongs to it and the queue can hold anything. */
  lemma BeginMeaning(e: Env)
    ensures Begin(e).Ok? <==> Crawlable(e, e.seed) && e.o.maxFrontierSize > 0
    ensures Crawlable(e, e.seed) && e.o.maxFrontierSize == 0 ==> Begin(e) == Err(Protocol.FrontierFull)
    ensures !Crawlable(e, e.seed) ==>
      Begin(e).Err? && Begin(e).error.SeedRejected? && Fails(e.o, e.g, e.seed, 0, {}, Begin(e).error.reason)
  {
    DecideMeaning(e.o, e.g, e.seed, 0, {});
    if !Crawlable(e, e.seed) {
      ReasonMeaning(e.o, e.g, e.seed, 0, {}, Begin(e).error.reason);
    }
    hide Objection;
  }

  /** The classes claimed are exactly the seed's and those that pages processed above the depth limit link to. */
  lemma ClaimedExactly(e: Env, k: Url)
    requires Begin(e).Ok?
    ensures var (p, done) := Crawl(e, Begin(e).value, []); k in p.visited <==> Discovered(e, done, k)
  {
    BeginExplains(e);
    hide Begin, Crawl, Sourced, Claimed, Discovered;
    CrawlExplains(e, Begin(e).value, []);
  }

  /** The target was discovered on a page processed before it. */
  ghost predicate HasOrigin(e: Env, done: seq<Target>, i: nat)
    requires i < |done|
  {
    exists j :: 0 <= j < i && FoundOn(e, done[i], done[j])
  }

  /**
   The targets processed: at most so many, the seed first, each later one found on a page processed before it, in
   order of depth, no class twice, and all of them belong to the crawl.
   */
  ghost predicate Explained(e: Env, done: seq<Target>) {
    && |done| <= e.o.limit
    && (e.o.limit > 0 ==> done != [])
    && (done != [] ==> done[0] == Target(e.seed, e.g.keyOf(e.seed), 0, None))
    && (forall i :: 0 < i < |done| ==> HasOrigin(e, done, i))
    && SortedByDepth(done)
    && E.DistinctKeys(done)
    && (forall t <- done :: t.key == e.g.keyOf(t.url) && Crawlable(e, t.url) && t.depth <= e.o.maxDepth)
  }

  lemma ProcessedIsExplained(e: Env)
    requires Begin(e).Ok?
    ensures Explained(e, Crawl(e, Begin(e).value, []).1)
  {
    var (p, done) := Crawl(e, Begin(e).value, []);
    BeginExplains(e);
    CrawlStarts(e);
    BeginInvariant(e);
    hide Begin, Crawl, Explains, Invariant;
    CrawlInvariant(e, Begin(e).value, []);
    CrawlExplains(e, Begin(e).value, []);
    DepthOrder(e, done, p);
    BeginningOfSourced(e, done, p);
    BeginningOfClaimed(e, done, p);
    hide SortedByDepth, E.DistinctKeys, HasOrigin, Crawlable;
  }

  lemma CrawlStarts(e: Env)
    requires Begin(e).Ok?
    ensures e.o.limit > 0 ==> Crawl(e, Begin(e).value, []).1 != []
  {
    var p := Begin(e).value;
    assert p.queue == [Seed(e)];
    hide Begin, Visit;
    if e.o.limit > 0 {
      CrawlExtends(e, Visit(e, p.(queue := p.queue[1..]), p.queue[0]), [p.queue[0]]);
      assert [] + [p.queue[0]] == [p.queue[0]];
    }
  }

  lemma {:induction false} CrawlExtends(e: Env, p: Pending, done: seq<Target>)
    ensures done <= Crawl(e, p, done).1
    decreases e.o.limit - |done|
  {
    hide Visit;
    if |done| < e.o.limit && p.queue != [] {
      CrawlExtends(e, Visit(e, p.(queue := p.queue[1..]), p.queue[0]), done + [p.queue[0]]);
    }
  }

  lemma DepthOrder(e: Env, done: seq<Target>, p: Pending)
    requires Invariant(e, done, p)
    ensures SortedByDepth(done)
  {
    hide Searching, DepthAtMost;
    assert forall i :: 0 <= i < |done| ==> (done + p.queue)[i] == done[i];
  }

  lemma BeginningOfSourced(e: Env, done: seq<Target>, p: Pending)
    requires Explains(e, done, p)
    ensures done != [] ==> done[0] == Seed(e)
    ensures forall i :: 0 < i < |done| ==> HasOrigin(e, done, i)
    ensures forall t <- done :: t.key == e.g.keyOf(t.url) && Crawlable(e, t.url) && t.depth <= e.o.maxDepth
  {
    var ts := done + p.queue;
    hide Claimed, Discovered, FoundOn, Crawlable;
    assert forall i :: 0 <= i < |done| ==> ts[i] == done[i];
    assert forall t <- done :: t in ts;
    forall i | 0 < i < |done| ensures HasOrigin(e, done, i) {
      assert HasSource(e, ts, i);
      var j :| 0 <= j < i && FoundOn(e, ts[i], ts[j]);
      assert FoundOn(e, done[i], done[j]);
    }
  }

  lemma BeginningOfClaimed(e: Env, done: seq<Target>, p: Pending)
    requires Explains(e, done, p)
    ensures E.DistinctKeys(done)
  {
    hide Sourced, Discovered;
    assert forall i :: 0 <= i < |done| ==> (done + p.queue)[i] == done[i];
  }

  /**
   If nothing was refused and the limit was not reached, every link of a processed page above the depth limit that
   belongs to the crawl leads to a class that was processed.
   */
  lemma LinksAreFollowed(e: Env, t: Target, u: Url)
    requires Begin(e).Ok? && Crawl(e, Begin(e).value, []).0.refused == 0
    requires |Crawl(e, Begin(e).value, []).1| < e.o.limit
    requires t in Crawl(e, Begin(e).value, []).1 && t.depth < e.o.maxDepth
    requires HasLink(e, t.url, u) && Permitted(e.g, u)
    ensures exists x :: x in Crawl(e, Begin(e).value, []).1 && x.key == e.g.keyOf(u) && x.depth <= t.depth + 1
  {
    var (p, done) := Crawl(e, Begin(e).value, []);
    BeginInvariant(e);
    CrawlInvariant(e, Begin(e).value, []);
    hide Begin, Crawl, Sourced, Names, Levelled, HasLink, Permitted;
    assert done + p.queue == done;
    assert ClosedAt(e, t, done);
  }

  /** Every link of a processed HTML page above the depth limit is claimed, if it belongs to the crawl. */
  lemma HtmlLinksAreClaimed(e: Env, t: Target, page: Scraped, u: Url)
    requires Begin(e).Ok? && t in Crawl(e, Begin(e).value, []).1 && t.depth < e.o.maxDepth
    requires MayFetch(e, t.url) && Answers(e, t.url, Some(page))
    requires page.kind == Html && page.links.Some? && u in page.links.value && Permitted(e.g, u)
    ensures e.g.keyOf(u) in Crawl(e, Begin(e).value, []).0.visited
  {
    assert HasLink(e, t.url, u);
    assert LinkedFrom(e, t, e.g.keyOf(u));
    hide Begin, Crawl, LinkedFrom;
    ClaimedExactly(e, e.g.keyOf(u));
  }

  /** A feed leads nowhere unless the options ask for feeds or documents, but for a canonical URL that is respected. */
  lemma FeedLinksAreAskedFor(e: Env, t: Target, page: Scraped, k: Url)
    requires Answers(e, t.url, Some(page)) && page.kind == Feed && LinkedFrom(e, t, k)
    ensures e.o.followFeedLinks || e.o.followDocumentLinks || (e.o.respectCanonical && page.canonical.Some?)
  {
    var u :| HasLink(e, t.url, u) && Crawlable(e, u) && e.g.keyOf(u) == k;
    var other :| Answers(e, t.url, Some(other)) && LeadsFrom(e.o, t.url, other, u);
    FinalAnswerMeaning(e, t.url, Some(page));
    FinalAnswerMeaning(e, t.url, Some(other));
    hide FinalAnswer, Answers;
  }
}
