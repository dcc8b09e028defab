/** The site map service as it runs: sitemaps, HTML pages, ranking, truncation. */
module MapService {
  import opened Prelude
  import opened Dedupe
  import opened Discovery
  import opened SitemapFiles
  import opened MapEntries
  import opened Ranking

  datatype Warning = DiscoveryPageLimitReached | MapResultsTruncated

  datatype MapError = InvalidUrl | UnsupportedScheme

  datatype Response = Response(links: seq<Link>, discovered: nat, warnings: seq<Warning>)

  /** The state of one map request. */
  class MapRun {
    var links: seq<Link>
    var seen: set<Url>
    var warnings: seq<Warning>
    /** The sitemap files fetched, and the pages queued. */
    ghost var files: seq<Url>
    ghost var trail: seq<Visit>

    constructor ()
      ensures links == [] && seen == {} && warnings == [] && files == [] && trail == []
    {
      links, seen, warnings, files, trail := [], {}, [], [], [];
    }

    ghost function State(): Board
      reads this
    {
      Board(links, seen, trail)
    }
  }

  // ---- The sitemap phase ----

  method OfferLocationsInOrder(c: Context, run: MapRun, locs: seq<Url>) returns (full: bool)
    modifies run`links, run`seen
    ensures OfferLocations(c, old(run.State()), locs) == (run.State(), full)
  {
    ghost var before := run.State();
    for i := 0 to |locs|
      invariant run.trail == before.trail
      invariant OfferLocations(c, before, locs) == OfferLocations(c, run.State(), locs[i..])
    {
      var norm := NormalizeCrawlUrl(locs[i], c.request.ignoreQuery, true);
      assert norm == Norm(c, locs[i]);
      assert locs[i..][1..] == locs[i + 1..];
      hide Norm, IsUrlAllowed;
      if IsUrlAllowed(c, norm) && norm !in run.seen {
        run.seen := run.seen + {norm};
        run.links := run.links + [Link(norm, None, None, FromSitemap, None)];
        if |run.links| >= c.request.limit * 2 {
          return true;
        }
      }
    }
    return false;
  }

  ghost predicate FileSeen(c: Context, seen: set<Url>, file: Url) {
    match c.site.sitemap(file)
    case Some(Locations(locs)) => forall loc <- locs :: IsUrlAllowed(c, Norm(c, loc)) ==> Norm(c, loc) in seen
    case _ => true
  }

  ghost predicate FilesSeen(c: Context, seen: set<Url>, files: seq<Url>) { forall f <- files :: FileSeen(c, seen, f) }

  /** The fetched files are exactly the ones marked as visited, once each. */
  ghost predicate FilesOnce(files: seq<Url>, visited: set<Url>) {
    && Distinct(files) && |files| == |visited|
    && (forall f <- files :: f in visited)
    && (forall f <- visited :: f in files)
  }

  /** The first `taken` of the initial files have been dealt with, and the others still head the queue. */
  ghost predicate InitialFirst(initial: seq<Url>, taken: nat, queue: seq<Entry>, visited: set<Url>) {
    && taken <= |initial|
    && (forall i :: 0 <= i < taken ==> initial[i] in visited)
    && |initial| - taken <= |queue|
    && (forall i :: taken <= i < |initial| ==> queue[i - taken] == (initial[i], 0))
  }

  lemma NothingFetched(initial: seq<Url>, visited: set<Url>, files: seq<Url>)
    requires visited == {} && files == []
    ensures InitialFirst(initial, 0, Initially(initial), visited) && FilesOnce(files, visited)
  {
  }

  lemma InitialNext(initial: seq<Url>, taken: nat, queue: seq<Entry>, visited: set<Url>)
    requires InitialFirst(initial, taken, queue, visited) && queue != []
    ensures taken <= |initial| && (taken < |initial| ==> queue[0] == (initial[taken], 0))
    ensures InitialFirst(initial, Min(taken + 1, |initial|), queue[1..], visited + {queue[0].0})
  {
  }

  lemma FileRead(c: Context, seed: Url, b: Board, locs: seq<Url>, files: seq<Url>, file: Url)
    requires Listing(c, seed, UrlsOf(b.links), b.seen) && FilesSeen(c, b.seen, files)
    requires c.site.sitemap(file) == Some(Locations(locs))
    ensures var (r, full) := OfferLocations(c, b, locs);
      && Listing(c, seed, UrlsOf(r.links), r.seen)
      && b.seen <= r.seen
      && (full ==> |r.links| >= c.request.limit * 2)
      && (!full ==> FilesSeen(c, r.seen, files + [file]))
  {
    OfferLocationsKeeps(c, seed, b, locs);
    hide Norm, IsUrlAllowed, Listing, UrlsOf, OfferLocations;
  }

  /** The rest of the search, from the queue and what has been fetched, is the rest of the whole search. */
  ghost predicate GoesOn(c: Context, queue: seq<Entry>, files: seq<Url>, b: Board, whole: SitemapRun) {
    Sitemaps(c, queue, files, b) == whole
  }

  lemma WholeSearch(c: Context, initial: seq<Url>, b: Board) returns (whole: SitemapRun)
    ensures GoesOn(c, Initially(initial), [], b, whole) && Searched(c, initial, whole.files, whole.full)
  {
    whole := Sitemaps(c, Initially(initial), [], b);
    FilesWithinReach(c, initial, b);
    hide Sitemaps, Searched;
  }

  /** The same, after the file at `u` has been taken from the queue and before it is read. */
  ghost predicate GoesOnWith(c: Context, u: Url, depth: nat, queue: seq<Entry>, files: seq<Url>, b: Board,
      whole: SitemapRun)
  {
    var file := c.site.sitemap(u);
    if file.None? then GoesOn(c, queue, files, b, whole)
    else if file.value.Index? then GoesOn(c, Queued(c, file.value.children, files, queue, depth + 1), files, b, whole)
    else
      var (b', full) := OfferLocations(c, b, file.value.locs);
      if full then whole == SitemapRun(files, b', true) else GoesOn(c, queue, files, b', whole)
  }

  lemma TakesHead(c: Context, queue: seq<Entry>, files: seq<Url>, b: Board, whole: SitemapRun)
    requires GoesOn(c, queue, files, b, whole)
    requires queue != [] && |files| < c.limits.maxSitemapFiles && queue[0].1 <= c.limits.maxSitemapDepth
    ensures var u, depth, rest := queue[0].0, queue[0].1, queue[1..];
      if u in files then GoesOn(c, rest, files, b, whole)
      else GoesOnWith(c, u, depth, rest, files + [u], b, whole)
  {
    hide OfferLocations, Queued;
  }

  lemma GoesNoFurther(c: Context, queue: seq<Entry>, files: seq<Url>, b: Board, whole: SitemapRun)
    requires GoesOn(c, queue, files, b, whole)
    requires queue == [] || |files| >= c.limits.maxSitemapFiles || queue[0].1 > c.limits.maxSitemapDepth
    ensures whole == SitemapRun(files, b, false)
  {
  }

  /** A cut-off only weakens what is said of the files. */
  lemma SearchedWeaker(c: Context, initial: seq<Url>, files: seq<Url>, cut: bool, cut': bool)
    requires Searched(c, initial, files, cut) && (cut ==> cut')
    ensures Searched(c, initial, files, cut')
  {
    hide WithinReach, SmallSite;
  }

  method CrawlSitemaps(c: Context, run: MapRun, initial: seq<Url>, ghost seed: Url)
    requires Listing(c, seed, UrlsOf(run.links), run.seen) && run.files == []
    requires Collected(c, run.files, run.State())
    modifies run
    ensures run.trail == old(run.trail) && run.warnings == old(run.warnings)
    ensures Listing(c, seed, UrlsOf(run.links), run.seen)
    ensures Collected(c, run.files, run.State())
    ensures Distinct(run.files) && |run.files| <= c.limits.maxSitemapFiles
    ensures |run.links| < c.request.limit * 2 ==> FilesSeen(c, run.seen, run.files)
    ensures |run.links| < c.request.limit * 2 && |run.files| < c.limits.maxSitemapFiles ==>
      forall u <- initial :: u in run.files
    ensures Searched(c, initial, run.files, |run.links| >= c.request.limit * 2)
  {
    hide Norm, IsUrlAllowed, Listing, UrlsOf, FilesSeen, InitialFirst, FilesOnce, Distinct, Collected;
    hide Sitemaps, GoesOn, GoesOnWith, Searched, Initially;
    ghost var whole := WholeSearch(c, initial, run.State());
    var queue: seq<Entry> := Initially(initial);
    var visited: set<Url> := {};
    ghost var taken: nat, stopped := 0, false;
    NothingFetched(initial, visited, run.files);
    NoFiles(c, run.seen);
    while queue != []
      invariant run.trail == old(run.trail) && run.warnings == old(run.warnings)
      invariant Listing(c, seed, UrlsOf(run.links), run.seen)
      invariant FilesOnce(run.files, visited) && |visited| <= c.limits.maxSitemapFiles
      invariant FilesSeen(c, run.seen, run.files) && Collected(c, run.files, run.State())
      invariant InitialFirst(initial, taken, queue, visited)
      invariant !stopped && GoesOn(c, queue, run.files, run.State(), whole)
      decreases c.limits.maxSitemapFiles - |visited|, |queue|
    {
      InitialNext(initial, taken, queue, visited);
      KnownFiles(run.files, visited);
      ghost var head := queue;
      var (sitemapUrl, depth) := queue[0];
      queue := queue[1..];
      if |visited| >= c.limits.maxSitemapFiles || depth > c.limits.maxSitemapDepth {
        GoesNoFurther(c, head, run.files, run.State(), whole);
        if depth > 0 { InitialDone(initial, taken, head, visited); }
        stopped := true;
        break;
      }
      TakesHead(c, head, run.files, run.State(), whole);
      taken := Min(taken + 1, |initial|);
      if sitemapUrl in visited {
        assert visited + {sitemapUrl} == visited;
        continue;
      }
      FilesNext(run.files, visited, sitemapUrl);
      KnownFiles(run.files + [sitemapUrl], visited + {sitemapUrl});
      visited := visited + {sitemapUrl};
      MoreFiles(c, run.files, sitemapUrl, run.State());
      run.files := run.files + [sitemapUrl];
      var full, longer := ReadSitemap(c, run, sitemapUrl, depth, visited, queue, seed, whole);
      InitialGrows(initial, taken, queue, longer, visited);
      queue := longer;
      if full {
        FilesCount(run.files, visited);
        SearchedWeaker(c, initial, run.files, true, |run.links| >= c.request.limit * 2);
        return;
      }
    }
    if !stopped {
      GoesNoFurther(c, queue, run.files, run.State(), whole);
      InitialDone(initial, taken, queue, visited);
    }
    SearchedWeaker(c, initial, run.files, false, |run.links| >= c.request.limit * 2);
    FilesCount(run.files, visited);
  }

  /** Reads the file just taken from the queue: offers its locations, or queues its children. */
  method ReadSitemap(c: Context, run: MapRun, u: Url, depth: nat, visited: set<Url>, queue: seq<Entry>,
      ghost seed: Url, ghost whole: SitemapRun) returns (full: bool, longer: seq<Entry>)
    requires Listing(c, seed, UrlsOf(run.links), run.seen)
    requires run.files != [] && run.files[|run.files| - 1] == u && Collected(c, run.files, run.State())
    requires FilesSeen(c, run.seen, run.files[..|run.files| - 1])
    requires forall x :: x in visited <==> x in run.files
    requires GoesOnWith(c, u, depth, queue, run.files, run.State(), whole)
    modifies run`links, run`seen
    ensures run.trail == old(run.trail) && queue <= longer && Collected(c, run.files, run.State())
    ensures Listing(c, seed, UrlsOf(run.links), run.seen)
    ensures full ==> |run.links| >= c.request.limit * 2 && whole == SitemapRun(run.files, run.State(), true)
    ensures !full ==> FilesSeen(c, run.seen, run.files) && GoesOn(c, longer, run.files, run.State(), whole)
  {
    hide Norm, IsUrlAllowed, Listing, UrlsOf, OfferLocations, FilesSeen, GoesOn, Queued, Collected;
    ghost var files := run.files[..|run.files| - 1];
    assert files + [u] == run.files;
    full, longer := false, queue;
    var file := c.site.sitemap(u);
    match file
    case Some(Locations(locs)) =>
      FileRead(c, seed, run.State(), locs, files, u);
      FileCollected(c, run.files, run.State(), u, locs);
      full := OfferLocationsInOrder(c, run, locs);
    case Some(Index(children)) =>
      OtherFile(c, run.seen, files, u);
      longer := QueueChildren(c, children, visited, queue, depth + 1, run.files);
    case None =>
      OtherFile(c, run.seen, files, u);
  }

  lemma KnownFiles(files: seq<Url>, visited: set<Url>)
    requires FilesOnce(files, visited)
    ensures |files| == |visited| && forall u :: u in visited <==> u in files
  {
  }

  method QueueChildren(c: Context, children: seq<Url>, visited: set<Url>, queue: seq<Entry>, depth: nat,
      ghost files: seq<Url>) returns (longer: seq<Entry>)
    requires forall u :: u in visited <==> u in files
    ensures longer == Queued(c, children, files, queue, depth)
    ensures queue <= longer
    ensures forall i :: |queue| <= i < |longer| ==>
      longer[i].0 in children && longer[i].0 !in visited && longer[i].1 == depth
    ensures |queue| + |children| < c.limits.maxSitemapFiles ==>
      forall u <- children :: u in visited || (u, depth) in longer
  {
    longer := queue;
    for i := 0 to |children|
      invariant longer == Queued(c, children[..i], files, queue, depth)
      invariant queue <= longer && |longer| <= |queue| + i
      invariant forall j :: |queue| <= j < |longer| ==>
        longer[j].0 in children && longer[j].0 !in visited && longer[j].1 == depth
      invariant |queue| + |children| < c.limits.maxSitemapFiles ==>
        forall j :: 0 <= j < i ==> children[j] in visited || (children[j], depth) in longer
    {
      assert children[..i + 1][..i] == children[..i];
      if children[i] !in visited && |longer| < c.limits.maxSitemapFiles {
        longer := longer + [(children[i], depth)];
      }
    }
    assert children[..|children|] == children;
  }

  lemma FilesNext(files: seq<Url>, visited: set<Url>, file: Url)
    requires FilesOnce(files, visited) && file !in visited
    ensures FilesOnce(files + [file], visited + {file})
  {
  }

  lemma FilesCount(files: seq<Url>, visited: set<Url>)
    requires FilesOnce(files, visited)
    ensures Distinct(files) && |files| == |visited| && forall f <- visited :: f in files
  {
  }

  lemma InitialGrows(initial: seq<Url>, taken: nat, queue: seq<Entry>, longer: seq<Entry>, visited: set<Url>)
    requires InitialFirst(initial, taken, queue, visited) && queue <= longer
    ensures InitialFirst(initial, taken, longer, visited)
  {
  }

  lemma InitialDone(initial: seq<Url>, taken: nat, queue: seq<Entry>, visited: set<Url>)
    requires InitialFirst(initial, taken, queue, visited) && (taken == |initial| || queue == [])
    ensures forall u <- initial :: u in visited
  {
  }

  lemma NoFiles(c: Context, seen: set<Url>)
    ensures FilesSeen(c, seen, [])
  {
  }

  lemma OtherFile(c: Context, seen: set<Url>, files: seq<Url>, file: Url)
    requires FilesSeen(c, seen, files) && !(c.site.sitemap(file).Some? && c.site.sitemap(file).value.Locations?)
    ensures FilesSeen(c, seen, files + [file])
  {
  }

  // ---- The HTML phase ----

  method PositionInList(links: seq<Link>, u: Url) returns (k: nat)
    ensures k == PositionOf(links, u)
  {
    k := 0;
    while k < |links| && links[k].url != u
      invariant k <= |links|
      invariant PositionOf(links, u) == k + PositionOf(links[k..], u)
    {
      assert links[k..][1..] == links[k + 1..];
      k := k + 1;
    }
  }

  method NotePageNode(c: Context, run: MapRun, v: Visit, page: Page)
    modifies run`links
    ensures run.State() == NotePage(c, old(run.State()), v, page)
  {
    hide IsUrlAllowed;
    var norm := NormalizeCrawlUrl(v.url, c.request.ignoreQuery, true);
    assert norm == Norm(c, v.url);
    hide Norm;
    var k := PositionInList(run.links, norm);
    if k < |run.links| {
      var existing := run.links[k];
      if existing.title.None? {
        existing := existing.(title := page.title);
      }
      if existing.description.None? {
        existing := existing.(description := page.description);
      }
      run.links := run.links[k := existing];
    } else if IsUrlAllowed(c, v.url) {
      var source := if v.depth == 0 then FromSeed else FromHtmlLink;
      run.links := run.links + [Link(norm, page.title, page.description, source, None)];
    }
  }

  method OfferOutboundLinks(c: Context, run: MapRun, outs: seq<Url>, depth: nat, queue: seq<Visit>)
      returns (longer: seq<Visit>)
    modifies run`links, run`seen, run`trail
    ensures run.State() == OfferLinks(c, old(run.State()), outs, depth)
    ensures |run.trail| >= |old(run.trail)| && longer == queue + run.trail[|old(run.trail)|..]
  {
    longer := queue;
    ghost var before, start := run.State(), |run.trail|;
    for i := 0 to |outs|
      invariant run.State() == OfferLinks(c, before, outs[..i], depth)
      invariant start <= |run.trail| && longer == queue + run.trail[start..]
    {
      assert outs[..i + 1][..i] == outs[..i];
      var norm := NormalizeCrawlUrl(outs[i], c.request.ignoreQuery, true);
      assert norm == Norm(c, outs[i]);
      hide Norm, IsUrlAllowed;
      if IsUrlAllowed(c, norm) && norm !in run.seen {
        run.seen := run.seen + {norm};
        longer := longer + [Visit(norm, depth + 1)];
        run.trail := run.trail + [Visit(norm, depth + 1)];
        if |run.links| < c.request.limit * 2 {
          run.links := run.links + [Link(norm, None, None, FromHtmlLink, None)];
        }
      }
    }
    assert outs[..|outs|] == outs;
  }

  method VisitPage(c: Context, run: MapRun, v: Visit, queue: seq<Visit>) returns (longer: seq<Visit>)
    modifies run`links, run`seen, run`trail
    ensures run.State() == AfterVisit(c, old(run.State()), v)
    ensures |run.trail| >= |old(run.trail)| && longer == queue + run.trail[|old(run.trail)|..]
  {
    hide Norm, IsUrlAllowed, Extracted, OfferLinks, PositionOf;
    longer := queue;
    var page := c.site.page(v.url);
    if page.Some? {
      var outs := Extract(c, v.url, page.value.hrefs);
      NotePageNode(c, run, v, page.value);
      assert run.trail == old(run.trail);
      hide NotePage;
      if v.depth < c.request.maxDepth {
        longer := OfferOutboundLinks(c, run, outs, v.depth, queue);
      }
    }
  }

  /** The state of the HTML phase once the first `done` queued pages have been visited. */
  ghost predicate Searching(c: Context, seed: Url, before: set<Url>, b: Board, done: nat) {
    Orderly(c, seed, before, b) && Explored(c, b, done) && AllTold(c, seed, before, b, done)
  }

  lemma SeedOnTrail(c: Context, seed: Url, links: seq<Link>, seen: set<Url>, files: seq<Url>, trail: seq<Visit>)
    requires Listing(c, seed, UrlsOf(links), seen) && Collected(c, files, Board(links, seen, trail))
    ensures var b := Board(links, seen + {Norm(c, seed)}, [Visit(seed, 0)]);
      Searching(c, seed, seen, b, 0)
  {
    hide *;
    NormTwice(c, seed);
    ListingWithout(c, seed, UrlsOf(links), seen, Norm(c, seed));
    SeedTrail(c, seed, seen, [Visit(seed, 0)]);
    ListedSeen(c, seed, links, seen);
    CollectedTold(c, files, seed, Board(links, seen, trail), seen + {Norm(c, seed)}, [Visit(seed, 0)]);
    StartsSearching(c, seed, seen, Board(links, seen + {Norm(c, seed)}, [Visit(seed, 0)]));
  }

  lemma SeedTrail(c: Context, seed: Url, seen: set<Url>, trail: seq<Visit>)
    requires trail == [Visit(seed, 0)]
    ensures Trail(c, seed, seen, trail, seen + {Norm(c, seed)})
  {
    assert trail[0] in trail;
    hide Norm, IsUrlAllowed;
  }

  lemma ListedSeen(c: Context, seed: Url, links: seq<Link>, seen: set<Url>)
    requires Listing(c, seed, UrlsOf(links), seen)
    ensures AllSeen(UrlsOf(links), seen)
  {
    hide Norm, UrlsOf, AllSeen;
  }

  lemma StartsSearching(c: Context, seed: Url, before: set<Url>, b: Board)
    requires Listing(c, seed, UrlsOf(b.links), b.seen) && Trail(c, seed, before, b.trail, b.seen)
    requires AllTold(c, seed, before, b, 0)
    ensures Searching(c, seed, before, b, 0)
  {
    hide Listing, Trail, UrlsOf, AllTold;
  }

  lemma NormTwice(c: Context, u: Url)
    ensures Norm(c, Norm(c, u)) == Norm(c, u)
  {
    NormalizeIdempotent(u, c.request.ignoreQuery, true);
    hide Normalize;
  }

  /** The clamp on the number of pages fetched together. */
  function BatchSize(c: Context): (r: nat)
    ensures 1 <= r <= 100
  {
    Min(Max(c.limits.maxConcurrent, 1), 100)
  }

  method TakeBatch(c: Context, queue: seq<Visit>) returns (batch: seq<Visit>, rest: seq<Visit>)
    ensures batch + rest == queue && |batch| <= BatchSize(c)
    ensures queue != [] ==> batch != []
  {
    batch, rest := [], queue;
    while rest != []
      invariant batch + rest == queue
      invariant |batch| < BatchSize(c)
      invariant queue != [] ==> batch != [] || rest == queue
    {
      batch, rest := batch + [rest[0]], rest[1..];
      if |batch| >= BatchSize(c) {
        break;
      }
    }
  }

  lemma SearchStep(c: Context, seed: Url, before: set<Url>, b: Board, done: nat)
    requires Searching(c, seed, before, b, done) && done < |b.trail|
    ensures var r := AfterVisit(c, b, b.trail[done]);
      && Searching(c, seed, before, r, done + 1)
      && done < |b.trail| <= |r.trail|
      && r.trail[..|b.trail|] == b.trail
      && Weight(c, r.trail[done + 1..]) < Weight(c, b.trail[done..])
  {
    VisitNext(c, seed, before, b, done);
    VisitTold(c, seed, before, b, done);
    VisitLightens(c, b, done);
    hide AfterVisit, Orderly, Explored, Weight, UrlsOf, AllTold;
  }

  lemma QueueStep(trail: seq<Visit>, longer: seq<Visit>, done: nat, batch: seq<Visit>, i: nat, queue: seq<Visit>)
    requires done <= |trail| <= |longer| && longer[..|trail|] == trail
    requires i < |batch| && batch[i..] + queue == trail[done..]
    ensures done < |trail| && batch[i] == trail[done]
    ensures batch[i + 1..] + (queue + longer[|trail|..]) == longer[done + 1..]
  {
    assert trail[done] == (batch[i..] + queue)[0];
    assert longer == trail + longer[|trail|..];
    assert trail[done + 1..] == (batch[i..] + queue)[1..] == batch[i + 1..] + queue;
    assert longer[done + 1..] == trail[done + 1..] + longer[|trail|..];
  }

  /** Visits one batch, in order. */
  method VisitBatch(c: Context, run: MapRun, batch: seq<Visit>, queue: seq<Visit>, ghost seed: Url,
      ghost before: set<Url>, ghost done: nat)
      returns (longer: seq<Visit>)
    requires Searching(c, seed, before, run.State(), done)
    requires done <= |run.trail| && batch + queue == run.trail[done..]
    modifies run`links, run`seen, run`trail
    ensures Searching(c, seed, before, run.State(), done + |batch|)
    ensures done + |batch| <= |run.trail| && longer == run.trail[done + |batch|..]
    ensures Weight(c, longer) + |batch| <= Weight(c, old(run.trail[done..]))
  {
    hide Searching, AfterVisit, Weight;
    longer := queue;
    for i := 0 to |batch|
      invariant Searching(c, seed, before, run.State(), done + i)
      invariant done + i <= |run.trail| && batch[i..] + longer == run.trail[done + i..]
      invariant Weight(c, run.trail[done + i..]) + i <= Weight(c, old(run.trail[done..]))
    {
      ghost var was, queued := run.State(), longer;
      assert was.trail[done + i] == (batch[i..] + longer)[0] == batch[i];
      SearchStep(c, seed, before, was, done + i);
      longer := VisitPage(c, run, batch[i], longer);
      QueueStep(was.trail, run.trail, done + i, batch, i, queued);
    }
    assert batch[|batch|..] + longer == longer;
  }

  /** Queues the seed and marks it as seen. */
  method StartHtmlDiscovery(c: Context, run: MapRun, seed: Url) returns (queue: seq<Visit>)
    requires Listing(c, seed, UrlsOf(run.links), run.seen) && Collected(c, run.files, run.State())
    modifies run`seen, run`trail
    ensures Searching(c, seed, old(run.seen), run.State(), 0)
    ensures queue == run.trail == [Visit(seed, 0)] && run.seen == old(run.seen) + {Norm(c, seed)}
  {
    SeedOnTrail(c, seed, run.links, run.seen, run.files, run.trail);
    queue := [Visit(seed, 0)];
    run.trail := queue;
    var norm := NormalizeCrawlUrl(seed, c.request.ignoreQuery, true);
    assert norm == Norm(c, seed);
    hide Norm, Listing, Searching, UrlsOf;
    run.seen := run.seen + {norm};
  }

  /**
   Visits queued pages batch by batch until the queue is empty or twice the limit is listed.
   `done` counts the pages visited: the visits are a prefix of everything that was queued.
   */
  method CrawlHtmlDiscovery(c: Context, run: MapRun, seed: Url) returns (ghost done: nat)
    requires Listing(c, seed, UrlsOf(run.links), run.seen) && Collected(c, run.files, run.State())
    modifies run
    ensures run.files == old(run.files)
    ensures Searching(c, seed, old(run.seen), run.State(), done)
    ensures done <= |run.trail| && (done == |run.trail| || |run.links| >= c.request.limit * 2)
    ensures run.warnings == old(run.warnings) + if done < |run.trail| then [DiscoveryPageLimitReached] else []
  {
    hide Norm, Listing, Searching, Weight, UrlsOf, Collected;
    var queue := StartHtmlDiscovery(c, run, seed);
    ghost var before := old(run.seen);
    done := 0;
    while queue != [] && |run.links| < c.request.limit * 2
      invariant run.files == old(run.files) && run.warnings == old(run.warnings)
      invariant Searching(c, seed, before, run.State(), done)
      invariant done <= |run.trail| && queue == run.trail[done..]
      decreases Weight(c, queue)
    {
      var batch, rest := TakeBatch(c, queue);
      queue := VisitBatch(c, run, batch, rest, seed, before, done);
      done := done + |batch|;
    }
    if queue != [] {
      run.warnings := run.warnings + [DiscoveryPageLimitReached];
    }
  }

  /** If the queue ran dry below twice the limit, the list holds everything the phase could have found. */
  lemma UntruncatedMapIsComplete(c: Context, seed: Url, before: set<Url>, b: Board)
    requires Searching(c, seed, before, b, |b.trail|) && |b.links| < c.request.limit * 2
    ensures forall u <- b.seen - {Norm(c, seed)} :: u in UrlsOf(b.links)
    ensures c.site.page(seed).Some? && IsUrlAllowed(c, seed) ==> Norm(c, seed) in UrlsOf(b.links)
    ensures forall v <- b.trail, out <- PageLinks(c, v) ::
      IsUrlAllowed(c, Norm(c, out)) ==> Norm(c, out) in UrlsOf(b.links) + [Norm(c, seed)]
  {
    hide Norm, IsUrlAllowed, UrlsOf, Extracted;
    forall v, out | v in b.trail && out in PageLinks(c, v) && IsUrlAllowed(c, Norm(c, out))
      ensures Norm(c, out) in UrlsOf(b.links) + [Norm(c, seed)]
    {
      var i :| 0 <= i < |b.trail| && b.trail[i] == v;
      assert LinksSeen(c, b.seen, b.trail[i]);
    }
    assert PageListed(c, UrlsOf(b.links), b.trail[0]);
  }

  /** The links a visited page contributes: none at the greatest depth, none if it could not be fetched. */
  function PageLinks(c: Context, v: Visit): seq<Url> {
    if v.depth < c.request.maxDepth && c.site.page(v.url).Some? then Extracted(c, v.url, c.site.page(v.url).value.hrefs)
    else []
  }

  // ---- The whole request ----

  function With(candidates: seq<Url>, u: Option<Url>): seq<Url> {
    if u.Some? && u.value !in candidates then candidates + [u.value] else candidates
  }

  /** The sitemaps that robots.txt names, and the two standard places. */
  function Candidates(site: Site, target: Url): (candidates: seq<Url>)
    ensures forall u <- site.robotsSitemaps :: u in candidates
    ensures forall path <- ["/sitemap.xml", "/sitemap_index.xml"] ::
      site.join(target, path).Some? ==> site.join(target, path).value in candidates
    ensures site.robotsSitemaps <= candidates
    ensures forall u <- candidates[|site.robotsSitemaps|..] ::
      Some(u) == site.join(target, "/sitemap.xml") || Some(u) == site.join(target, "/sitemap_index.xml")
  {
    With(With(site.robotsSitemaps, site.join(target, "/sitemap.xml")), site.join(target, "/sitemap_index.xml"))
  }

  method SitemapCandidates(site: Site, target: Url) returns (candidates: seq<Url>)
    ensures candidates == Candidates(site, target)
  {
    candidates := site.robotsSitemaps;
    var standard := site.join(target, "/sitemap.xml");
    if standard.Some? && standard.value !in candidates {
      candidates := candidates + [standard.value];
    }
    var index := site.join(target, "/sitemap_index.xml");
    if index.Some? && index.value !in candidates {
      candidates := candidates + [index.value];
    }
  }

  function ContextFor(request: Request, limits: Limits, site: Site, target: Url): Context {
    Context(request, limits, site, if target.host.Some? then target.host.value else "")
  }

  lemma EmptyListing(c: Context, seed: Url)
    ensures Listing(c, seed, UrlsOf([]), {})
  {
  }

  lemma ListedFacts(c: Context, seed: Url, seen: set<Url>, urls: seq<Url>)
    requires NormalForms(c, seen) && AllSeen(urls, seen)
    ensures forall u <- urls :: Normalize(u, c.request.ignoreQuery, true) == u
  {
    hide Normalize;
  }

  /**
   What the two phases leave: a sound list, and a search of the site that was not needed because the list was long
   enough, or that ran dry, or that was cut off at twice the limit.
   */
  ghost predicate Surveyed(c: Context, target: Url, b: Board, done: nat) {
    && Listing(c, target, UrlsOf(b.links), b.seen)
    && done <= |b.trail|
    && (b.trail == [] ==> |b.links| >= c.request.limit)
    && (b.trail != [] ==>
          (done == |b.trail| || |b.links| >= c.request.limit * 2)
          && exists before :: Searching(c, target, before, b, done))
  }

  /**
   No sitemap file is fetched twice, and at most so many are. Unless the list was cut off, every allowed location in a
   fetched file is on the board; and unless the number of files was, every sitemap that robots.txt names was fetched.
   Which index files were followed is as `Searched` says.
   */
  ghost predicate SitemapsRead(c: Context, target: Url, b: Board, files: seq<Url>) {
    && Distinct(files) && |files| <= c.limits.maxSitemapFiles
    && (!c.request.includeSitemap ==> files == [])
    && (c.request.includeSitemap ==>
          Searched(c, Candidates(c.site, target), files, |b.links| >= c.request.limit * 2))
    && (c.request.includeSitemap && |b.links| < c.request.limit * 2 ==>
          && FilesSeen(c, b.seen, files)
          && (|files| < c.limits.maxSitemapFiles ==> forall u <- c.site.robotsSitemaps :: u in files))
  }

  /**
   Every entry says where its URL was found first, and what its own page says. `before` are the URLs that the sitemap
   phase found: all of them in the files, and all allowed ones in the files unless the list was cut off.
   */
  ghost predicate Attributed(c: Context, target: Url, b: Board, done: nat, files: seq<Url>) {
    exists before ::
      && AllTold(c, target, before, b, done)
      && AllFromFiles(c, files, before)
      && (|b.links| < c.request.limit * 2 && files != [] ==> FilesSeen(c, before, files))
  }

  /** Runs the sitemap phase if asked for, then the HTML phase if the list is still short. */
  method DiscoverLinks(c: Context, run: MapRun, target: Url) returns (ghost done: nat)
    requires run.links == [] && run.seen == {} && run.warnings == [] && run.files == [] && run.trail == []
    modifies run
    ensures Surveyed(c, target, run.State(), done)
    ensures MapResultsTruncated !in run.warnings
    ensures SitemapsRead(c, target, run.State(), run.files)
    ensures Attributed(c, target, run.State(), done, run.files)
  {
    EmptyListing(c, target);
    NothingCollected(c, run.State());
    hide Norm, Listing, Searching, UrlsOf, FilesSeen, Searched, Candidates, Collected, Attributed;
    if c.request.includeSitemap {
      var candidates := SitemapCandidates(c.site, target);
      CrawlSitemaps(c, run, candidates, target);
    }
    SitemapsAttributed(c, target, run.State(), run.files);
    done := 0;
    if |run.links| < c.request.limit {
      ghost var before := run.seen;
      done := CrawlHtmlDiscovery(c, run, target);
      SearchingListing(c, target, before, run.State(), done);
      SearchAttributed(c, target, before, run.State(), done, run.files);
      if c.request.includeSitemap {
        SearchedWeaker(c, Candidates(c.site, target), run.files, false, |run.links| >= c.request.limit * 2);
      }
      if FilesSeen(c, before, run.files) {
        FilesStillSeen(c, before, run.seen, run.files);
      }
    }
  }

  lemma SearchingListing(c: Context, seed: Url, before: set<Url>, b: Board, done: nat)
    requires Searching(c, seed, before, b, done)
    ensures Listing(c, seed, UrlsOf(b.links), b.seen) && |b.trail| > 0 && before <= b.seen
  {
    hide Norm, UrlsOf, Listing;
  }

  lemma SitemapsAttributed(c: Context, target: Url, b: Board, files: seq<Url>)
    requires Collected(c, files, b) && Listing(c, target, UrlsOf(b.links), b.seen)
    requires |b.links| < c.request.limit * 2 && files != [] ==> FilesSeen(c, b.seen, files)
    ensures Attributed(c, target, b, 0, files) && AllFromFiles(c, files, b.seen)
  {
    ListedSeen(c, target, b.links, b.seen);
    CollectedTold(c, files, target, b, b.seen, b.trail);
    hide Norm, Listing, FilesSeen, AllTold, AllFromFiles, AllBare, AllListed, UrlsOf;
  }

  lemma SearchAttributed(c: Context, target: Url, before: set<Url>, b: Board, done: nat, files: seq<Url>)
    requires Searching(c, target, before, b, done) && AllFromFiles(c, files, before)
    requires files != [] ==> FilesSeen(c, before, files)
    ensures Attributed(c, target, b, done, files)
  {
    hide Norm, Orderly, Explored, FilesSeen, AllTold, AllFromFiles;
  }

  lemma FilesStillSeen(c: Context, before: set<Url>, seen: set<Url>, files: seq<Url>)
    requires FilesSeen(c, before, files) && before <= seen
    ensures FilesSeen(c, seen, files)
  {
    hide Norm, IsUrlAllowed;
  }

  /** What a finished list must look like to the caller. */
  ghost predicate Presentable(c: Context, target: Url, response: Response) {
    var urls := UrlsOf(response.links);
    && Distinct(urls)
    && (forall u <- urls :: Normalize(u, c.request.ignoreQuery, true) == u && Admissible(c, target, u))
    && |urls| == Min(c.request.limit, response.discovered)
    && (MapResultsTruncated in response.warnings <==> response.discovered > c.request.limit)
    && (c.request.scoring.Some? ==> Descending(response.links))
  }

  lemma PresentableList(c: Context, target: Url, links: seq<Link>, seen: set<Url>, kept: nat)
    requires Listing(c, target, UrlsOf(links), seen) && kept == Min(c.request.limit, |links|)
    ensures kept <= |links| == |InOrder(links, c.request.scoring)|
    ensures
      var shown := InOrder(links, c.request.scoring)[..kept];
      var urls := UrlsOf(shown);
      && Distinct(urls)
      && (forall u <- urls :: Normalize(u, c.request.ignoreQuery, true) == u && Admissible(c, target, u))
      && (c.request.scoring.Some? ==> Descending(shown))
  {
    RankedAndTruncated(c, target, links, seen, c.request.scoring, kept);
    ListedFacts(c, target, seen, UrlsOf(InOrder(links, c.request.scoring)[..kept]));
    if c.request.scoring.Some? {
      RankedMeaning(links, c.request.scoring.value);
    }
    hide Norm, Admissible, UrlsOf, Distinct, Ranked, Score;
  }

  /** Ranks the list, cuts it to the limit and says so. */
  method Finish(c: Context, run: MapRun, target: Url) returns (response: Response)
    requires Listing(c, target, UrlsOf(run.links), run.seen) && MapResultsTruncated !in run.warnings
    modifies run
    ensures response.discovered == |old(run.links)| == |InOrder(old(run.links), c.request.scoring)|
    ensures response.links == InOrder(old(run.links), c.request.scoring)[..Min(c.request.limit, response.discovered)]
    ensures Presentable(c, target, response)
  {
    hide Norm, Admissible, UrlsOf, Listing, InOrder, Distinct, Descending;
    var totalDiscovered := |run.links|;
    var kept := Min(c.request.limit, totalDiscovered);
    PresentableList(c, target, run.links, run.seen, kept);
    run.links := InOrder(run.links, c.request.scoring);
    if |run.links| > c.request.limit {
      run.links := run.links[..c.request.limit];
      run.warnings := run.warnings + [MapResultsTruncated];
    }
    assert run.links == InOrder(old(run.links), c.request.scoring)[..kept];
    response := Response(run.links, totalDiscovered, run.warnings);
  }

  lemma VisitedOnce(c: Context, seed: Url, b: Board, done: nat)
    requires Surveyed(c, seed, b, done)
    ensures NormsDistinct(c, b.trail[..done])
  {
    hide Norm, Listing;
  }

  /** A survey that lists fewer URLs than the limit has left nothing out. */
  lemma ShortListIsComplete(c: Context, target: Url, b: Board, done: nat)
    requires Surveyed(c, target, b, done) && |b.links| < c.request.limit
    ensures done == |b.trail| > 0
    ensures var start := Normalize(target, c.request.ignoreQuery, true);
      && (forall u <- b.seen - {start} :: u in UrlsOf(b.links))
      && (c.site.page(target).Some? && IsUrlAllowed(c, target) ==> start in UrlsOf(b.links))
      && forall v <- b.trail, out <- PageLinks(c, v) ::
           var n := Normalize(out, c.request.ignoreQuery, true);
           IsUrlAllowed(c, n) ==> n == start || n in UrlsOf(b.links)
  {
    var before :| Searching(c, target, before, b, done);
    SearchingListing(c, target, before, b, done);
    hide Searching, Listing, Normalize, IsUrlAllowed, UrlsOf, PageLinks;
    UntruncatedMapIsComplete(c, target, before, b);
  }

  /**
   Answers a map request. The first `done` entries of the board's trail are the pages visited, in order. The list
   never repeats a URL, every URL in it is its own normal form, no normal form is visited twice, and what is returned
   is the ranked list of everything on the board, cut to the limit. `files` are the sitemap files that were fetched.
   */
  method Map(request: Request, limits: Limits, site: Site, target: Option<Url>)
      returns (r: Result<Response, MapError>, ghost board: Board, ghost done: nat, ghost files: seq<Url>)
    ensures r == Err(InvalidUrl) <==> target.None?
    ensures r == Err(UnsupportedScheme)
       <==> target.Some? && target.value.scheme != "http" && target.value.scheme != "https"
    ensures r.Ok? ==>
      var c, kept := ContextFor(request, limits, site, target.value), Min(request.limit, |board.links|);
      && Presentable(c, target.value, r.value)
      && Surveyed(c, target.value, board, done)
      && NormsDistinct(c, board.trail[..done])
      && r.value.discovered == |board.links| == |InOrder(board.links, request.scoring)|
      && r.value.links == InOrder(board.links, request.scoring)[..kept]
      && SitemapsRead(c, target.value, board, files)
      && Attributed(c, target.value, board, done, files)
  {
    board, done, files := Board([], {}, []), 0, [];
    if target.None? {
      return Err(InvalidUrl), board, done, files;
    }
    if target.value.scheme != "http" && target.value.scheme != "https" {
      return Err(UnsupportedScheme), board, done, files;
    }
    var c := ContextFor(request, limits, site, target.value);
    var run := new MapRun();
    hide Norm, Listing, Surveyed, UrlsOf, Presentable, InOrder, SitemapsRead, Attributed;
    done := DiscoverLinks(c, run, target.value);
    board, files := run.State(), run.files;
    VisitedOnce(c, target.value, board, done);
    SurveyedListing(c, target.value, board, done);
    var response := Finish(c, run, target.value);
    r := Ok(response);
  }

  lemma SurveyedListing(c: Context, target: Url, b: Board, done: nat)
    requires Surveyed(c, target, b, done)
    ensures Listing(c, target, UrlsOf(b.links), b.seen) && done <= |b.trail|
    ensures |InOrder(b.links, c.request.scoring)| == |b.links|
  {
    hide Norm, UrlsOf;
    RankedAndTruncated(c, target, b.links, b.seen, c.request.scoring, 0);
  }
}
