/** The map crawl: what is listed, what is visited, and the invariants of both. */
module Discovery {
  import opened Prelude
  import opened Dedupe
  import Text

  datatype Source = FromSitemap | FromSeed | FromHtmlLink

  datatype Link = Link(
    url: Url, title: Option<string>, description: Option<string>, source: Source, score: Option<real>)

  /** A map request. `scoring` is absent when there is no search query, or none with a usable word. */
  datatype Request = Request(
    limit: nat,
    maxDepth: nat,
    ignoreQuery: bool,
    includeSubdomains: bool,
    includeSitemap: bool,
    includePaths: seq<string>,
    excludePaths: seq<string>,
    scoring: Option<Link -> real>)

  datatype Limits = Limits(maxSitemapFiles: nat, maxSitemapDepth: nat, maxConcurrent: nat, maxPageLinks: nat)

  datatype SitemapFile = Locations(locs: seq<Url>) | Index(children: seq<Url>)

  datatype Page = Page(title: Option<string>, description: Option<string>, hrefs: seq<string>)

  /** What the network, the parsers and the URL library answer. */
  datatype Site = Site(
    robotsSitemaps: seq<Url>,
    sitemap: Url -> Option<SitemapFile>,
    page: Url -> Option<Page>,
    join: (Url, string) -> Option<Url>,
    glob: (string, string) -> bool)

  datatype Context = Context(request: Request, limits: Limits, site: Site, baseHost: string)

  /** A page taken from the queue, with its distance from the seed. */
  datatype Visit = Visit(url: Url, depth: nat)

  /** The list so far, the normal forms seen, and every page queued so far, visited or not. */
  datatype Board = Board(links: seq<Link>, seen: set<Url>, trail: seq<Visit>)

  function Norm(c: Context, u: Url): Url { Normalize(u, c.request.ignoreQuery, true) }

  predicate HostAllowed(c: Context, u: Url) {
    && u.host.Some?
    && if c.request.includeSubdomains then Text.EndsWith(u.host.value, c.baseHost) else u.host.value == c.baseHost
  }

  predicate AnyGlob(c: Context, globs: seq<string>, path: string) { exists g <- globs :: c.site.glob(g, path) }

  predicate IsUrlAllowed(c: Context, u: Url) {
    && HostAllowed(c, u)
    && (c.request.includePaths != [] ==> AnyGlob(c, c.request.includePaths, u.path))
    && !AnyGlob(c, c.request.excludePaths, u.path)
  }

  /**
   The host is that of the target or, if asked for, ends with it; some include pattern matches the path if there are
   any, and no exclude pattern does.
   */
  lemma AllowedMeaning(c: Context, u: Url)
    ensures IsUrlAllowed(c, u)
       <==> (&& u.host.Some?
             && (if c.request.includeSubdomains then exists front: string :: front + c.baseHost == u.host.value
                 else u.host.value == c.baseHost)
             && (c.request.includePaths == [] || exists glob <- c.request.includePaths :: c.site.glob(glob, u.path))
             && forall glob <- c.request.excludePaths :: !c.site.glob(glob, u.path))
  {
    if u.host.Some? { EndMeaning(u.host.value, c.baseHost); }
    hide Text.EndsWith;
  }

  lemma EndMeaning(s: string, end: string)
    ensures Text.EndsWith(s, end) <==> exists front: string :: front + end == s
  {
    if Text.EndsWith(s, end) { assert s[..|s| - |end|] + end == s; }
    if front: string :| front + end == s { assert s[|front|..] == end; }
  }

  function UrlsOf(links: seq<Link>): (r: seq<Url>)
    ensures |r| == |links|
    ensures forall i :: 0 <= i < |links| ==> r[i] == links[i].url
  {
    seq(|links|, i requires 0 <= i < |links| => links[i].url)
  }

  // ---- Links of a page ----

  predicate IsSkipped(href: string) {
    || href == ""
    || Text.StartsWith(href, "#")
    || Text.StartsWith(href, "javascript:")
    || Text.StartsWith(href, "mailto:")
    || Text.StartsWith(href, "tel:")
  }

  /** The URL that one anchor contributes. */
  function LinkOf(c: Context, base: Url, href: string): Option<Url> {
    var trimmed := Text.Trim(href);
    if IsSkipped(trimmed) then None
    else
      var joined := c.site.join(base, trimmed);
      if joined.None? then None else Some(Normalize(joined.value, false, true))
  }

  ghost predicate PointsNowhere(href: string) {
    || href == "" || href[0] == '#'
    || exists word <- {"javascript:", "mailto:", "tel:"}, rest: string :: href == word + rest
  }

  lemma SkippedMeaning(href: string)
    ensures IsSkipped(href) <==> PointsNowhere(href)
  {
    forall word: string ensures Text.StartsWith(href, word) <==> exists rest: string :: href == word + rest {
      if Text.StartsWith(href, word) { assert href == word + href[|word|..]; }
    }
    hide Text.StartsWith;
    assert Text.StartsWith(href, "#") <==> href != "" && href[0] == '#' by { StartsWithOne(href, '#'); }
  }

  lemma StartsWithOne(href: string, c: char)
    ensures Text.StartsWith(href, [c]) <==> href != "" && href[0] == c
  {
  }

  /** The anchor leads from the base to this URL; the whitespace around its address does not count. */
  ghost predicate LeadsTo(c: Context, base: Url, href: string, u: Url) {
    exists i: nat, j: nat :: Text.TrimmedAt(href, i, j) && AddressLeadsTo(c, base, href[i..j], u)
  }

  ghost predicate AddressLeadsTo(c: Context, base: Url, address: string, u: Url) {
    && !PointsNowhere(address)
    && c.site.join(base, address).Some?
    && u == Normalize(c.site.join(base, address).value, false, true)
  }

  lemma LinkMeaning(c: Context, base: Url, href: string, u: Url)
    ensures LinkOf(c, base, href) == Some(u) <==> LeadsTo(c, base, href, u)
  {
    var t := Text.Trim(href);
    Text.TrimMeaning(href, t);
    SkippedMeaning(t);
    hide Text.TrimmedAt, Text.Trim, IsSkipped, PointsNowhere, Normalize;
    forall i: nat, j: nat | Text.TrimmedAt(href, i, j) ensures i <= j <= |href| && href[i..j] == t {
      TrimmedIs(href, i, j);
    }
  }

  lemma TrimmedIs(s: string, i: nat, j: nat)
    requires Text.TrimmedAt(s, i, j)
    ensures i <= j <= |s| && s[i..j] == Text.Trim(s)
  {
    Text.TrimMeaning(s, s[i..j]);
    hide Text.Trim;
  }

  /** Every link of the page, in document order. */
  function AllLinks(c: Context, base: Url, hrefs: seq<string>): seq<Url> {
    if hrefs == [] then []
    else
      var rest, link := AllLinks(c, base, hrefs[..|hrefs| - 1]), LinkOf(c, base, hrefs[|hrefs| - 1]);
      if link.None? then rest else rest + [link.value]
  }

  /** The extractor keeps only the first few. */
  function Extracted(c: Context, base: Url, hrefs: seq<string>): (r: seq<Url>)
    ensures |r| <= c.limits.maxPageLinks
    ensures forall u <- r :: u in AllLinks(c, base, hrefs)
  {
    var all := AllLinks(c, base, hrefs);
    all[..Min(c.limits.maxPageLinks, |all|)]
  }

  method Extract(c: Context, base: Url, hrefs: seq<string>) returns (links: seq<Url>)
    ensures links == Extracted(c, base, hrefs)
  {
    links := [];
    assert Extracted(c, base, hrefs[..0]) == [];
    for i := 0 to |hrefs|
      invariant links == Extracted(c, base, hrefs[..i])
    {
      ExtractedNext(c, base, hrefs, i);
      hide LinkOf, Extracted, AllLinks;
      if |links| >= c.limits.maxPageLinks {
        ExtractedStays(c, base, hrefs, i);
        break;
      }
      var link := LinkOf(c, base, hrefs[i]);
      if link.Some? {
        links := links + [link.value];
      }
    }
    assert hrefs[..|hrefs|] == hrefs;
  }

  lemma ExtractedNext(c: Context, base: Url, hrefs: seq<string>, i: nat)
    requires i < |hrefs|
    ensures var links, link := Extracted(c, base, hrefs[..i]), LinkOf(c, base, hrefs[i]);
      Extracted(c, base, hrefs[..i + 1])
      == if |links| < c.limits.maxPageLinks && link.Some? then links + [link.value] else links
  {
    var all, link := AllLinks(c, base, hrefs[..i]), LinkOf(c, base, hrefs[i]);
    assert Extracted(c, base, hrefs[..i]) == all[..Min(c.limits.maxPageLinks, |all|)];
    var all' := AllLinks(c, base, hrefs[..i + 1]);
    assert Extracted(c, base, hrefs[..i + 1]) == all'[..Min(c.limits.maxPageLinks, |all'|)];
    hide *;
    AllLinksNext(c, base, hrefs, i);
    if link.Some? { FirstNext(all, link.value, c.limits.maxPageLinks); }
  }

  lemma FirstNext<T>(xs: seq<T>, x: T, m: nat)
    ensures var first := xs[..Min(m, |xs|)];
      (xs + [x])[..Min(m, |xs| + 1)] == if |first| < m then first + [x] else first
  {
  }

  lemma AllLinksNext(c: Context, base: Url, hrefs: seq<string>, i: nat)
    requires i < |hrefs|
    ensures var links, link := AllLinks(c, base, hrefs[..i]), LinkOf(c, base, hrefs[i]);
      AllLinks(c, base, hrefs[..i + 1]) == if link.None? then links else links + [link.value]
  {
    assert hrefs[..i + 1][..i] == hrefs[..i];
    hide LinkOf;
  }

  lemma {:induction false} ExtractedStays(c: Context, base: Url, hrefs: seq<string>, i: nat)
    requires i <= |hrefs| && |Extracted(c, base, hrefs[..i])| == c.limits.maxPageLinks
    ensures Extracted(c, base, hrefs) == Extracted(c, base, hrefs[..i])
    decreases |hrefs|
  {
    if i < |hrefs| {
      assert hrefs[..|hrefs| - 1][..i] == hrefs[..i];
      ExtractedStays(c, base, hrefs[..|hrefs| - 1], i);
    } else {
      assert hrefs[..i] == hrefs;
    }
  }

  function Leading(c: Context, base: Url): string -> int {
    (href: string) => if LinkOf(c, base, href).Some? then 1 else 0
  }

  lemma {:induction false} AllLinksCount(c: Context, base: Url, hrefs: seq<string>)
    ensures |AllLinks(c, base, hrefs)| == Sum(hrefs, Leading(c, base))
  {
    hide LinkOf;
    if hrefs != [] { AllLinksCount(c, base, hrefs[..|hrefs| - 1]); }
  }

  lemma {:induction false} AllLinksAt(c: Context, base: Url, hrefs: seq<string>, i: nat)
    requires i < |hrefs| && LinkOf(c, base, hrefs[i]).Some?
    ensures var all, k := AllLinks(c, base, hrefs), Sum(hrefs[..i], Leading(c, base));
      0 <= k < |all| && all[k] == LinkOf(c, base, hrefs[i]).value
  {
    hide LinkOf, Sum;
    var init := hrefs[..|hrefs| - 1];
    if i < |init| {
      AllLinksAt(c, base, init, i);
      assert init[..i] == hrefs[..i];
    } else {
      AllLinksCount(c, base, init);
      assert hrefs[..i] == init;
    }
  }

  /** The anchors that lead somewhere contribute one URL each, in document order, as long as there is room. */
  lemma ExtractedMeaning(c: Context, base: Url, hrefs: seq<string>, i: nat, u: Url)
    requires i < |hrefs| && LeadsTo(c, base, hrefs[i], u)
    ensures var links, k := Extracted(c, base, hrefs), Sum(hrefs[..i], Leading(c, base));
      && k >= 0 && |links| == Min(c.limits.maxPageLinks, Sum(hrefs, Leading(c, base)))
      && (k < c.limits.maxPageLinks ==> k < |links| && links[k] == u)
    ensures forall href :: Leading(c, base)(href) == if exists v :: LeadsTo(c, base, href, v) then 1 else 0
  {
    LinkMeaning(c, base, hrefs[i], u);
    AllLinksCount(c, base, hrefs);
    AllLinksAt(c, base, hrefs, i);
    hide Sum, AllLinks, LeadsTo;
    forall href ensures Leading(c, base)(href) == if exists v :: LeadsTo(c, base, href, v) then 1 else 0 {
      LinkLeads(c, base, href);
    }
  }

  lemma LinkLeads(c: Context, base: Url, href: string)
    ensures LinkOf(c, base, href).Some? <==> exists v :: LeadsTo(c, base, href, v)
  {
    hide LeadsTo, LinkOf;
    if LinkOf(c, base, href).Some? { LinkMeaning(c, base, href, LinkOf(c, base, href).value); }
    if v :| LeadsTo(c, base, href, v) { LinkMeaning(c, base, href, v); }
  }

  // ---- Steps on the board ----

  /** A candidate that would be new. */
  predicate IsNew(c: Context, b: Board, u: Url) { IsUrlAllowed(c, Norm(c, u)) && Norm(c, u) !in b.seen }

  function OfferLocation(c: Context, b: Board, loc: Url): Board {
    if IsNew(c, b, loc) then
      b.(links := b.links + [Link(Norm(c, loc), None, None, FromSitemap, None)], seen := b.seen + {Norm(c, loc)})
    else b
  }

  /** Offers the locations of one sitemap file in order; stops for good once twice the limit is listed. */
  function OfferLocations(c: Context, b: Board, locs: seq<Url>): (Board, bool)
    decreases |locs|
  {
    if locs == [] then (b, false)
    else
      var next := OfferLocation(c, b, locs[0]);
      if IsNew(c, b, locs[0]) && |next.links| >= c.request.limit * 2 then (next, true)
      else OfferLocations(c, next, locs[1..])
  }

  /** Offers a link found on a page: queued when new, and listed while there is room. */
  function OfferLink(c: Context, b: Board, out: Url, depth: nat): Board {
    var n := Norm(c, out);
    if IsNew(c, b, out) then
      Board(if |b.links| < c.request.limit * 2 then b.links + [Link(n, None, None, FromHtmlLink, None)] else b.links,
            b.seen + {n},
            b.trail + [Visit(n, depth + 1)])
    else b
  }

  function OfferLinks(c: Context, b: Board, outs: seq<Url>, depth: nat): Board {
    if outs == [] then b else OfferLink(c, OfferLinks(c, b, outs[..|outs| - 1], depth), outs[|outs| - 1], depth)
  }

  /** The position of the node for a URL, or the length of the list. */
  function PositionOf(links: seq<Link>, u: Url): (r: nat)
    ensures r <= |links|
    ensures r < |links| ==> links[r].url == u
    ensures forall i :: 0 <= i < r ==> links[i].url != u
  {
    if links == [] then 0 else if links[0].url == u then 0 else 1 + PositionOf(links[1..], u)
  }

  /** Fills in the page's own node, or lists the page. */
  function NotePage(c: Context, b: Board, v: Visit, page: Page): Board {
    var n := Norm(c, v.url);
    var k := PositionOf(b.links, n);
    if k < |b.links| then
      var node := b.links[k];
      b.(links := b.links[k := node.(
        title := if node.title.None? then page.title else node.title,
        description := if node.description.None? then page.description else node.description)])
    else if IsUrlAllowed(c, v.url) then
      var source := if v.depth == 0 then FromSeed else FromHtmlLink;
      b.(links := b.links + [Link(n, page.title, page.description, source, None)])
    else b
  }

  /** What one visited page does to the board. */
  function AfterVisit(c: Context, b: Board, v: Visit): Board {
    var page := c.site.page(v.url);
    if page.None? then b
    else
      var noted := NotePage(c, b, v, page.value);
      if v.depth < c.request.maxDepth then OfferLinks(c, noted, Extracted(c, v.url, page.value.hrefs), v.depth)
      else noted
  }

  // ---- The invariant of the list ----

  /** A listed URL passed the filter, or it is the normal form of a seed that did. */
  ghost predicate Admissible(c: Context, seed: Url, u: Url) {
    IsUrlAllowed(c, u) || (u == Norm(c, seed) && IsUrlAllowed(c, seed))
  }

  ghost predicate AllSeen(urls: seq<Url>, seen: set<Url>) { forall u <- urls :: u in seen }

  ghost predicate AllAdmissible(c: Context, seed: Url, urls: seq<Url>) { forall u <- urls :: Admissible(c, seed, u) }

  ghost predicate NormalForms(c: Context, seen: set<Url>) { forall u <- seen :: Norm(c, u) == u }

  /** Until twice the limit is listed, everything seen is listed, the seed excepted. */
  ghost predicate NothingLost(c: Context, seed: Url, urls: seq<Url>, seen: set<Url>) {
    |urls| < c.request.limit * 2 ==> forall u <- seen :: u in urls || u == Norm(c, seed)
  }

  ghost predicate Listing(c: Context, seed: Url, urls: seq<Url>, seen: set<Url>) {
    && Distinct(urls)
    && AllSeen(urls, seen)
    && AllAdmissible(c, seed, urls)
    && NormalForms(c, seen)
    && NothingLost(c, seed, urls, seen)
  }

  lemma ListingAppend(c: Context, seed: Url, urls: seq<Url>, seen: set<Url>, n: Url)
    requires Listing(c, seed, urls, seen) && n !in urls && Admissible(c, seed, n) && Norm(c, n) == n
    ensures Listing(c, seed, urls + [n], seen + {n})
  {
    hide Norm, Admissible;
  }

  /** A new URL may be left unlisted only when the list is full. */
  lemma ListingWithout(c: Context, seed: Url, urls: seq<Url>, seen: set<Url>, n: Url)
    requires Listing(c, seed, urls, seen) && Norm(c, n) == n && (|urls| >= c.request.limit * 2 || n == Norm(c, seed))
    ensures Listing(c, seed, urls, seen + {n})
  {
    hide Norm, Admissible, Distinct;
  }

  lemma OfferLocationKeeps(c: Context, seed: Url, b: Board, loc: Url)
    requires Listing(c, seed, UrlsOf(b.links), b.seen)
    ensures var r := OfferLocation(c, b, loc);
      && Listing(c, seed, UrlsOf(r.links), r.seen)
      && b.seen <= r.seen
      && |b.links| <= |r.links|
      && (IsUrlAllowed(c, Norm(c, loc)) ==> Norm(c, loc) in r.seen)
  {
    var n := Norm(c, loc);
    NormalizeIdempotent(loc, c.request.ignoreQuery, true);
    assert Norm(c, n) == n;
    if IsNew(c, b, loc) {
      var r := OfferLocation(c, b, loc);
      assert UrlsOf(r.links) == UrlsOf(b.links) + [n];
      hide Norm, IsUrlAllowed, Distinct, NothingLost, NormalForms, AllAdmissible;
      ListingAppend(c, seed, UrlsOf(b.links), b.seen, n);
    }
  }

  lemma {:induction false} OfferLocationsKeeps(c: Context, seed: Url, b: Board, locs: seq<Url>)
    requires Listing(c, seed, UrlsOf(b.links), b.seen)
    ensures var (r, full) := OfferLocations(c, b, locs);
      && Listing(c, seed, UrlsOf(r.links), r.seen)
      && b.seen <= r.seen
      && (full ==> |r.links| >= c.request.limit * 2)
      && (!full ==> forall loc <- locs :: IsUrlAllowed(c, Norm(c, loc)) ==> Norm(c, loc) in r.seen)
    decreases |locs|
  {
    if locs != [] {
      OfferLocationKeeps(c, seed, b, locs[0]);
      var next := OfferLocation(c, b, locs[0]);
      OfferLocationsKeeps(c, seed, next, locs[1..]);
      hide Norm, IsUrlAllowed, Listing, OfferLocation, UrlsOf;
    }
  }

  // ---- The invariant of the queue ----

  ghost predicate NormsDistinct(c: Context, trail: seq<Visit>) {
    forall i, j :: 0 <= i < j < |trail| ==> Norm(c, trail[i].url) != Norm(c, trail[j].url)
  }

  ghost predicate TrailSeen(c: Context, trail: seq<Visit>, seen: set<Url>) {
    forall v <- trail :: Norm(c, v.url) in seen
  }

  /** Only the seed is queued as it was given; every other page is queued by its allowed normal form. */
  ghost predicate QueuedByNormalForm(c: Context, seed: Url, trail: seq<Visit>) {
    && |trail| > 0 && trail[0] == Visit(seed, 0)
    && forall i :: 1 <= i < |trail| ==>
         && Norm(c, trail[i].url) == trail[i].url && IsUrlAllowed(c, trail[i].url)
         && 0 < trail[i].depth <= c.request.maxDepth
  }

  /** Whatever the HTML phase has newly seen it has queued. */
  ghost predicate NewlySeenQueued(c: Context, before: set<Url>, trail: seq<Visit>, seen: set<Url>) {
    forall u <- seen :: u in before || exists v <- trail :: Norm(c, v.url) == u
  }

  /** Apart from the seed, nothing that was seen before the phase is visited in it. */
  ghost predicate NotSeenBefore(before: set<Url>, trail: seq<Visit>, seen: set<Url>) {
    before <= seen && forall i :: 1 <= i < |trail| ==> trail[i].url !in before
  }

  ghost predicate Trail(c: Context, seed: Url, before: set<Url>, trail: seq<Visit>, seen: set<Url>) {
    && NormsDistinct(c, trail)
    && TrailSeen(c, trail, seen)
    && QueuedByNormalForm(c, seed, trail)
    && NewlySeenQueued(c, before, trail, seen)
    && NotSeenBefore(before, trail, seen)
  }

  lemma TrailAppend(c: Context, seed: Url, before: set<Url>, trail: seq<Visit>, seen: set<Url>, v: Visit)
    requires Trail(c, seed, before, trail, seen)
    requires v.url !in seen && Norm(c, v.url) == v.url && IsUrlAllowed(c, v.url) && 0 < v.depth <= c.request.maxDepth
    ensures Trail(c, seed, before, trail + [v], seen + {v.url})
  {
    hide Norm, IsUrlAllowed;
    var longer := trail + [v];
    forall u <- seen + {v.url} ensures u in before || exists w <- longer :: Norm(c, w.url) == u {
      if u in seen {
        if u !in before {
          var w :| w in trail && Norm(c, w.url) == u;
          assert w in longer;
        }
      } else {
        assert v in longer;
      }
    }
    hide NewlySeenQueued;
  }

  /** The board with its list and its queue in order. */
  ghost predicate Orderly(c: Context, seed: Url, before: set<Url>, b: Board) {
    Listing(c, seed, UrlsOf(b.links), b.seen) && Trail(c, seed, before, b.trail, b.seen)
  }

  /** The board has only grown. */
  ghost predicate Extends(old_: Board, b: Board) {
    && old_.seen <= b.seen
    && |old_.trail| <= |b.trail| && b.trail[..|old_.trail|] == old_.trail
    && forall u <- UrlsOf(old_.links) :: u in UrlsOf(b.links)
  }

  lemma OfferLinkExtends(c: Context, b: Board, out: Url, depth: nat)
    ensures Extends(b, OfferLink(c, b, out, depth))
  {
    hide Norm, IsNew;
    if IsNew(c, b, out) && |b.links| < c.request.limit * 2 {
      assert UrlsOf(OfferLink(c, b, out, depth).links) == UrlsOf(b.links) + [Norm(c, out)];
    }
  }

  lemma OfferLinkListing(c: Context, seed: Url, b: Board, out: Url, depth: nat)
    requires Listing(c, seed, UrlsOf(b.links), b.seen)
    ensures var r := OfferLink(c, b, out, depth);
      Listing(c, seed, UrlsOf(r.links), r.seen) && (IsUrlAllowed(c, Norm(c, out)) ==> Norm(c, out) in r.seen)
  {
    var n, r := Norm(c, out), OfferLink(c, b, out, depth);
    NormalizeIdempotent(out, c.request.ignoreQuery, true);
    assert Norm(c, n) == n;
    if IsNew(c, b, out) {
      hide Norm, IsUrlAllowed, Distinct, NothingLost, NormalForms, AllAdmissible;
      if |b.links| < c.request.limit * 2 {
        assert UrlsOf(r.links) == UrlsOf(b.links) + [n];
        ListingAppend(c, seed, UrlsOf(b.links), b.seen, n);
      } else {
        ListingWithout(c, seed, UrlsOf(b.links), b.seen, n);
      }
    }
  }

  lemma OfferLinkTrail(c: Context, seed: Url, before: set<Url>, b: Board, out: Url, depth: nat)
    requires Trail(c, seed, before, b.trail, b.seen) && depth < c.request.maxDepth
    ensures var r := OfferLink(c, b, out, depth); Trail(c, seed, before, r.trail, r.seen)
  {
    var n := Norm(c, out);
    NormalizeIdempotent(out, c.request.ignoreQuery, true);
    assert Norm(c, n) == n;
    if IsNew(c, b, out) {
      hide Norm, IsUrlAllowed, Trail;
      TrailAppend(c, seed, before, b.trail, b.seen, Visit(n, depth + 1));
    }
  }

  lemma OfferLinkKeeps(c: Context, seed: Url, before: set<Url>, b: Board, out: Url, depth: nat)
    requires Orderly(c, seed, before, b) && depth < c.request.maxDepth
    ensures var r := OfferLink(c, b, out, depth);
      && Orderly(c, seed, before, r)
      && Extends(b, r)
      && (IsUrlAllowed(c, Norm(c, out)) ==> Norm(c, out) in r.seen)
  {
    OfferLinkExtends(c, b, out, depth);
    OfferLinkListing(c, seed, b, out, depth);
    OfferLinkTrail(c, seed, before, b, out, depth);
    hide Norm, IsUrlAllowed, Trail, Listing, OfferLink, Extends, UrlsOf;
  }

  lemma {:induction false} OfferLinksKeeps(c: Context, seed: Url, before: set<Url>, b: Board, outs: seq<Url>,
      depth: nat)
    requires Orderly(c, seed, before, b) && depth < c.request.maxDepth
    ensures var r := OfferLinks(c, b, outs, depth);
      && Orderly(c, seed, before, r)
      && Extends(b, r)
      && (forall out <- outs :: IsUrlAllowed(c, Norm(c, out)) ==> Norm(c, out) in r.seen)
    decreases |outs|
  {
    if outs != [] {
      var init, last := outs[..|outs| - 1], outs[|outs| - 1];
      OfferLinksKeeps(c, seed, before, b, init, depth);
      OfferLinkKeeps(c, seed, before, OfferLinks(c, b, init, depth), last, depth);
      ExtendsTransitive(b, OfferLinks(c, b, init, depth), OfferLinks(c, b, outs, depth));
      assert forall out <- outs :: out in init || out == last;
      hide Norm, IsUrlAllowed, Orderly, OfferLink;
    }
  }

  lemma ExtendsTransitive(a: Board, b: Board, d: Board)
    requires Extends(a, b) && Extends(b, d)
    ensures Extends(a, d)
  {
    assert d.trail[..|a.trail|] == b.trail[..|a.trail|];
    hide UrlsOf;
  }

  /** A page that came from the queue ends up listed under its normal form if the filter allows it. */
  lemma NotePageKeeps(c: Context, seed: Url, before: set<Url>, b: Board, v: Visit, page: Page)
    requires Orderly(c, seed, before, b) && v in b.trail
    ensures var r := NotePage(c, b, v, page);
      && Orderly(c, seed, before, r)
      && Extends(b, r)
      && r.trail == b.trail
      && (IsUrlAllowed(c, v.url) ==> Norm(c, v.url) in UrlsOf(r.links))
  {
    var n, r := Norm(c, v.url), NotePage(c, b, v, page);
    var k := PositionOf(b.links, n);
    hide Norm, IsUrlAllowed;
    if k < |b.links| {
      assert UrlsOf(r.links) == UrlsOf(b.links);
      assert UrlsOf(r.links)[k] == n;
    } else if IsUrlAllowed(c, v.url) {
      assert UrlsOf(r.links) == UrlsOf(b.links) + [n];
      assert n in b.seen && Norm(c, n) == n && Admissible(c, seed, n);
      hide Trail, Listing;
      ListingAppend(c, seed, UrlsOf(b.links), b.seen, n);
      assert b.seen + {n} == b.seen;
    }
  }

  // ---- How far the visits have got ----

  /** Every allowed link of the page has been seen. */
  ghost predicate LinksSeen(c: Context, seen: set<Url>, v: Visit) {
    v.depth < c.request.maxDepth && c.site.page(v.url).Some? ==>
      forall out <- Extracted(c, v.url, c.site.page(v.url).value.hrefs) ::
        IsUrlAllowed(c, Norm(c, out)) ==> Norm(c, out) in seen
  }

  /** A fetched and allowed page is listed. */
  ghost predicate PageListed(c: Context, urls: seq<Url>, v: Visit) {
    c.site.page(v.url).Some? && IsUrlAllowed(c, v.url) ==> Norm(c, v.url) in urls
  }

  ghost predicate Explored(c: Context, b: Board, done: nat) {
    && done <= |b.trail|
    && forall i :: 0 <= i < done ==> LinksSeen(c, b.seen, b.trail[i]) && PageListed(c, UrlsOf(b.links), b.trail[i])
  }

  lemma ExploredGrows(c: Context, a: Board, b: Board, done: nat)
    requires Explored(c, a, done) && Extends(a, b)
    ensures Explored(c, b, done)
  {
    hide Norm, IsUrlAllowed, Extracted, UrlsOf;
    assert forall i :: 0 <= i < done ==> b.trail[i] == b.trail[..|a.trail|][i];
  }

  lemma AfterVisitKeeps(c: Context, seed: Url, before: set<Url>, b: Board, v: Visit)
    requires Orderly(c, seed, before, b) && v in b.trail
    ensures var r := AfterVisit(c, b, v);
      && Orderly(c, seed, before, r)
      && Extends(b, r)
      && LinksSeen(c, r.seen, v)
      && PageListed(c, UrlsOf(r.links), v)
  {
    var page := c.site.page(v.url);
    hide Norm, IsUrlAllowed, Extracted, Orderly, NotePage, OfferLinks, UrlsOf;
    if page.Some? {
      var noted := NotePage(c, b, v, page.value);
      NotePageKeeps(c, seed, before, b, v, page.value);
      if v.depth < c.request.maxDepth {
        var outs := Extracted(c, v.url, page.value.hrefs);
        OfferLinksKeeps(c, seed, before, noted, outs, v.depth);
        ExtendsTransitive(b, noted, OfferLinks(c, noted, outs, v.depth));
      }
    }
  }

  /** Visiting the next queued page extends the explored part by one. */
  lemma VisitNext(c: Context, seed: Url, before: set<Url>, b: Board, done: nat)
    requires Orderly(c, seed, before, b) && Explored(c, b, done) && done < |b.trail|
    ensures var r := AfterVisit(c, b, b.trail[done]);
      Orderly(c, seed, before, r) && Explored(c, r, done + 1) && Extends(b, r)
  {
    var v := b.trail[done];
    var r := AfterVisit(c, b, v);
    AfterVisitKeeps(c, seed, before, b, v);
    ExploredGrows(c, b, r, done);
    assert r.trail[done] == r.trail[..|b.trail|][done];
    hide Norm, IsUrlAllowed, LinksSeen, PageListed, Orderly, AfterVisit, UrlsOf;
  }

  // ---- Why the HTML phase ends ----

  function Pow(base: nat, e: nat): (r: nat)
    ensures base > 0 ==> r > 0
  {
    if e == 0 then 1 else base * Pow(base, e - 1)
  }

  /** A page at the greatest depth weighs one; a page one level up outweighs all the links it may yield. */
  function PageWeight(c: Context, depth: nat): (r: nat)
    ensures r > 0
  {
    Pow(c.limits.maxPageLinks + 1, if depth < c.request.maxDepth then c.request.maxDepth - depth else 0)
  }

  function Weight(c: Context, queue: seq<Visit>): nat {
    if queue == [] then 0 else PageWeight(c, queue[0].depth) + Weight(c, queue[1..])
  }

  lemma {:induction false} WeightConcat(c: Context, a: seq<Visit>, b: seq<Visit>)
    ensures Weight(c, a + b) == Weight(c, a) + Weight(c, b)
  {
    if a == [] {
      assert a + b == b;
    } else {
      assert (a + b)[1..] == a[1..] + b;
      hide PageWeight;
      WeightConcat(c, a[1..], b);
    }
  }

  lemma WeightOfOne(c: Context, queue: seq<Visit>, v: Visit)
    ensures Weight(c, queue + [v]) == Weight(c, queue) + PageWeight(c, v.depth)
  {
    WeightConcat(c, queue, [v]);
  }

  /** A page one level up outweighs every link it may yield. */
  lemma ChildrenWeighLess(c: Context, depth: nat, n: nat)
    requires depth < c.request.maxDepth && n <= c.limits.maxPageLinks
    ensures n * PageWeight(c, depth + 1) < PageWeight(c, depth)
  {
    var w, m := PageWeight(c, depth + 1), c.limits.maxPageLinks;
    assert PageWeight(c, depth) == (m + 1) * w;
    Monotone(n, m, w);
  }

  lemma Monotone(n: nat, m: nat, w: nat)
    requires n <= m && w > 0
    ensures n * w < (m + 1) * w
  {
    assert (m + 1) * w - n * w == (m + 1 - n) * w;
  }

  lemma OfferLinkWeight(c: Context, b: Board, out: Url, depth: nat, done: nat)
    requires done <= |b.trail|
    ensures var r := OfferLink(c, b, out, depth);
      done <= |r.trail| && Weight(c, r.trail[done..]) <= Weight(c, b.trail[done..]) + PageWeight(c, depth + 1)
  {
    var v := Visit(Norm(c, out), depth + 1);
    WeightOfOne(c, b.trail[done..], v);
    var r := OfferLink(c, b, out, depth);
    hide Norm, IsNew, PageWeight, Weight;
    assert r.trail == b.trail || r.trail[done..] == b.trail[done..] + [v];
  }

  lemma {:induction false} OfferLinksWeight(c: Context, b: Board, outs: seq<Url>, depth: nat, done: nat)
    requires done <= |b.trail|
    ensures var r := OfferLinks(c, b, outs, depth);
      done <= |r.trail| && Weight(c, r.trail[done..]) <= Weight(c, b.trail[done..]) + |outs| * PageWeight(c, depth + 1)
    decreases |outs|
  {
    hide OfferLink, PageWeight, Weight;
    if outs != [] {
      var init := outs[..|outs| - 1];
      OfferLinksWeight(c, b, init, depth, done);
      OfferLinkWeight(c, OfferLinks(c, b, init, depth), outs[|outs| - 1], depth, done);
      assert |outs| * PageWeight(c, depth + 1) == |init| * PageWeight(c, depth + 1) + PageWeight(c, depth + 1);
    }
  }

  /** Taking a page out of the queue and queueing what it yields makes the queue lighter. */
  lemma VisitLightens(c: Context, b: Board, done: nat)
    requires done < |b.trail|
    ensures var r := AfterVisit(c, b, b.trail[done]);
      done + 1 <= |r.trail| && Weight(c, r.trail[done + 1..]) < Weight(c, b.trail[done..])
  {
    hide Norm, PageWeight, Extracted, OfferLinks, PositionOf, IsUrlAllowed;
    var v := b.trail[done];
    var page := c.site.page(v.url);
    assert b.trail[done..][1..] == b.trail[done + 1..];
    assert Weight(c, b.trail[done..]) == PageWeight(c, v.depth) + Weight(c, b.trail[done + 1..]);
    hide Weight;
    if page.Some? {
      var noted := NotePage(c, b, v, page.value);
      assert noted.trail == b.trail;
      if v.depth < c.request.maxDepth {
        var outs := Extracted(c, v.url, page.value.hrefs);
        OfferLinksWeight(c, noted, outs, v.depth, done + 1);
        ChildrenWeighLess(c, v.depth, |outs|);
      }
    }
  }
}
