/** Crawl targets, crawl options, and the chain of guards a candidate URL passes before it is queued. */
module Filters {
  import opened Prelude
  import opened Dedupe

  /** The options of a crawl that its control flow depends on. */
  datatype Options = Options(
    limit: nat,
    maxDepth: nat,
    maxFrontierSize: nat,
    maxRetries: nat,
    respectRobots: bool,
    useSitemap: bool,
    respectCanonical: bool,
    ignoreQuery: bool,
    removeTracking: bool,
    followFeedLinks: bool,
    followDocumentLinks: bool)

  /** The site-dependent guards, and the normal form in use, for a fixed seed and a fixed configuration. */
  datatype Guards = Guards(
    keyOf: Url -> Url,
    hostIsSafe: Url -> bool,
    isStaticAsset: Url -> bool,
    isSameDomain: Url -> bool,
    isPathAllowed: string -> bool)

  datatype Target = Target(url: Url, key: Url, depth: nat, parent: Option<Url>)

  datatype Reason =
    InvalidScheme | DepthExceeded | PrivateNetwork | StaticAsset | DomainMismatch | PathFiltered | Duplicate

  datatype Decision = Allowed(key: Url) | Disallowed(reason: Reason)

  /** Deduplication keys are the normal forms that the options ask for. */
  ghost predicate KeysAreNormalForms(o: Options, g: Guards) {
    forall u :: g.keyOf(u) == Normalize(u, o.ignoreQuery, o.removeTracking)
  }

  /** The first guard other than the duplicate check that rejects the URL at this depth. */
  function Objection(o: Options, g: Guards, u: Url, depth: nat): Option<Reason> {
    if u.scheme != "http" && u.scheme != "https" then Some(InvalidScheme)
    else if depth > o.maxDepth then Some(DepthExceeded)
    else if !g.hostIsSafe(u) then Some(PrivateNetwork)
    else if g.isStaticAsset(u) then Some(StaticAsset)
    else if !g.isSameDomain(u) then Some(DomainMismatch)
    else if !g.isPathAllowed(u.path) then Some(PathFiltered)
    else None
  }

  function Decide(o: Options, g: Guards, u: Url, depth: nat, visited: set<Url>): Decision {
    var objection := Objection(o, g, u, depth);
    if objection.Some? then Disallowed(objection.value)
    else if g.keyOf(u) in visited then Disallowed(Duplicate)
    else Allowed(g.keyOf(u))
  }

  /** The URL belongs to the crawl at all: it passes every guard other than depth and duplication. */
  predicate Permitted(g: Guards, u: Url) {
    && (u.scheme == "http" || u.scheme == "https")
    && g.hostIsSafe(u) && !g.isStaticAsset(u) && g.isSameDomain(u) && g.isPathAllowed(u.path)
  }

  /** The only state change is claiming the key of an allowed URL. */
  method EvaluateUrlForCrawl(o: Options, g: Guards, u: Url, depth: nat, dedupe: UrlDeduplicator) returns (d: Decision)
    requires KeysAreNormalForms(o, g)
    modifies dedupe
    ensures d == Decide(o, g, u, depth, old(dedupe.visited))
    ensures dedupe.visited == old(dedupe.visited) + (if d.Allowed? then {d.key} else {})
  {
    if u.scheme != "http" && u.scheme != "https" {
      return Disallowed(InvalidScheme);
    }
    if depth > o.maxDepth {
      return Disallowed(DepthExceeded);
    }
    if !g.hostIsSafe(u) {
      return Disallowed(PrivateNetwork);
    }
    if g.isStaticAsset(u) {
      return Disallowed(StaticAsset);
    }
    if !g.isSameDomain(u) {
      return Disallowed(DomainMismatch);
    }
    if !g.isPathAllowed(u.path) {
      return Disallowed(PathFiltered);
    }
    var normalized := NormalizeCrawlUrl(u, o.ignoreQuery, o.removeTracking);
    var inserted := dedupe.Insert(normalized);
    if !inserted {
      return Disallowed(Duplicate);
    }
    return Allowed(normalized);
  }

  /** A URL is let in exactly when it is permitted, shallow enough and new. */
  lemma DecideMeaning(o: Options, g: Guards, u: Url, depth: nat, visited: set<Url>)
    ensures Decide(o, g, u, depth, visited).Allowed?
       <==> Permitted(g, u) && depth <= o.maxDepth && g.keyOf(u) !in visited
    ensures Decide(o, g, u, depth, visited) == Disallowed(Duplicate)
       <==> Permitted(g, u) && depth <= o.maxDepth && g.keyOf(u) in visited
    ensures Decide(o, g, u, depth, visited).Allowed? ==> Decide(o, g, u, depth, visited).key == g.keyOf(u)
  {
  }

  /** What each reason says of the URL. */
  predicate Fails(o: Options, g: Guards, u: Url, depth: nat, visited: set<Url>, r: Reason) {
    match r
    case InvalidScheme => u.scheme !in {"http", "https"}
    case DepthExceeded => depth > o.maxDepth
    case PrivateNetwork => !g.hostIsSafe(u)
    case StaticAsset => g.isStaticAsset(u)
    case DomainMismatch => !g.isSameDomain(u)
    case PathFiltered => !g.isPathAllowed(u.path)
    case Duplicate => g.keyOf(u) in visited
  }

  /** The order of the guards. */
  function Turn(r: Reason): nat {
    match r
    case InvalidScheme => 1
    case DepthExceeded => 2
    case PrivateNetwork => 3
    case StaticAsset => 4
    case DomainMismatch => 5
    case PathFiltered => 6
    case Duplicate => 7
  }

  /** A rejected URL is told the first guard that it fails. */
  lemma ReasonMeaning(o: Options, g: Guards, u: Url, depth: nat, visited: set<Url>, r: Reason)
    ensures Decide(o, g, u, depth, visited) == Disallowed(r)
       <==> Fails(o, g, u, depth, visited, r)
            && forall q :: Turn(q) < Turn(r) ==> !Fails(o, g, u, depth, visited, q)
  {
    assert Decide(o, g, u, depth, visited) == Disallowed(r) ==> Fails(o, g, u, depth, visited, r);
    forall q | Turn(q) < Turn(r) && Decide(o, g, u, depth, visited) == Disallowed(r)
      ensures !Fails(o, g, u, depth, visited, q)
    {
    }
    if Fails(o, g, u, depth, visited, r) && forall q :: Turn(q) < Turn(r) ==> !Fails(o, g, u, depth, visited, q) {
      var d := Decide(o, g, u, depth, visited);
      if d.Disallowed? {
        assert Fails(o, g, u, depth, visited, d.reason);
        assert Turn(d.reason) <= Turn(r) ==> d.reason == r;
      }
    }
  }
}
