/**
 What a crawl by one worker does, as a function: no sitemap, no cancellation. The queue and the visited set after
 each processed target, and the order in which targets are processed.
 */
module SingleWorker {
  import opened Prelude
  import opened Dedupe
  import opened Filters
  import opened Protocol

  datatype ContentKind = Html | Feed | OtherContent

  datatype Scraped = Scraped(status: nat, kind: ContentKind, links: Option<seq<Url>>, canonical: Option<Url>)

  /** The web as the crawler sees it: robots.txt verdicts, and the answer to each attempt at each URL. */
  datatype Site = Site(robotsAllow: Url -> bool, scrape: (Url, nat) -> Option<Scraped>)

  /** The queue, the visited set, and how many pushes the full queue refused. */
  datatype Pending = Pending(queue: seq<Target>, visited: set<Url>, refused: nat)

  datatype Env = Env(o: Options, g: Guards, site: Site, seed: Url)

  predicate IsTransient(r: Option<Scraped>) {
    r.None? || IsRetryableStatus(r.value.status)
  }

  /** The answer the retry loop ends with, after `tries` attempts so far. */
  function FinalAnswer(e: Env, u: Url, tries: nat): Option<Scraped>
    decreases e.o.maxRetries + 1 - tries
  {
    var r := e.site.scrape(u, tries + 1);
    if IsTransient(r) && tries + 1 <= e.o.maxRetries then FinalAnswer(e, u, tries + 1) else r
  }

  predicate ShouldFollow(e: Env, kind: ContentKind) {
    kind.Html? || (kind.Feed? && e.o.followFeedLinks) || e.o.followDocumentLinks
  }

  predicate Blocked(e: Env, u: Url) { e.o.respectRobots && !e.site.robotsAllow(u) }

  function CanonicalLinks(e: Env, u: Url, r: Scraped): seq<Url> {
    if e.o.respectCanonical && r.canonical.Some? && r.canonical.value != u then [r.canonical.value] else []
  }

  function PageLinks(e: Env, r: Scraped): seq<Url> {
    if ShouldFollow(e, r.kind) && r.links.Some? then r.links.value else []
  }

  /** The URLs that processing `u` discovers, in order: its links, then its canonical URL. */
  function Outgoing(e: Env, u: Url): seq<Url> {
    if Blocked(e, u) then []
    else
      var r := FinalAnswer(e, u, 0);
      if r.None? then [] else PageLinks(e, r.value) + CanonicalLinks(e, u, r.value)
  }

  /** Offers one URL to the frontier. */
  function Offer(e: Env, p: Pending, u: Url, depth: nat, parent: Url): Pending {
    var d := Decide(e.o, e.g, u, depth, p.visited);
    if d.Disallowed? then p
    else if |p.queue| >= e.o.maxFrontierSize then
      p.(visited := p.visited + {d.key}, refused := p.refused + 1)
    else
      p.(visited := p.visited + {d.key}, queue := p.queue + [Target(u, d.key, depth, Some(parent))])
  }

  function OfferAll(e: Env, p: Pending, urls: seq<Url>, depth: nat, parent: Url): Pending {
    if urls == [] then p
    else Offer(e, OfferAll(e, p, urls[..|urls| - 1], depth, parent), urls[|urls| - 1], depth, parent)
  }

  /** Processing a popped target. */
  function Visit(e: Env, p: Pending, t: Target): Pending {
    OfferAll(e, p, if t.depth < e.o.maxDepth then Outgoing(e, t.url) else [], t.depth + 1, t.url)
  }

  function Seed(e: Env): Target { Target(e.seed, e.g.keyOf(e.seed), 0, None) }

  /** Admits the seed. */
  function Begin(e: Env): Result<Pending, StartError> {
    var d := Decide(e.o, e.g, e.seed, 0, {});
    if d.Disallowed? then Err(SeedRejected(d.reason))
    else if e.o.maxFrontierSize == 0 then Err(FrontierFull)
    else Ok(Pending([Seed(e)], {d.key}, 0))
  }

  /** The frontier and the processed targets after the crawl stops on its own. */
  function Crawl(e: Env, p: Pending, done: seq<Target>): (Pending, seq<Target>)
    decreases e.o.limit - |done|
  {
    if |done| >= e.o.limit || p.queue == [] then (p, done)
    else Crawl(e, Visit(e, p.(queue := p.queue[1..]), p.queue[0]), done + [p.queue[0]])
  }
}
