/** What each listed URL is said to be: where it was found, and the title and description of its own page. */
module MapEntries {
  import opened Prelude
  import opened Dedupe
  import opened Discovery

  // ---- After the sitemap phase ----

  ghost predicate Locates(c: Context, file: Url, u: Url) {
    match c.site.sitemap(file)
    case Some(Locations(locs)) => exists loc <- locs :: Norm(c, loc) == u
    case _ => false
  }

  ghost predicate FromFiles(c: Context, files: seq<Url>, u: Url) { exists f <- files :: Locates(c, f, u) }

  ghost predicate AllFromFiles(c: Context, files: seq<Url>, urls: set<Url>) {
    forall u <- urls :: FromFiles(c, files, u)
  }

  ghost predicate AllBare(links: seq<Link>) {
    forall l <- links :: l == Link(l.url, None, None, FromSitemap, None)
  }

  ghost predicate AllListed(urls: set<Url>, links: seq<Link>) { forall u <- urls :: u in UrlsOf(links) }

  /** All that has been seen was found in one of the files, and is listed with nothing but its URL. */
  ghost predicate Collected(c: Context, files: seq<Url>, b: Board) {
    AllBare(b.links) && AllListed(b.seen, b.links) && AllFromFiles(c, files, b.seen)
  }

  lemma NothingCollected(c: Context, b: Board)
    requires b.links == [] && b.seen == {}
    ensures Collected(c, [], b)
  {
  }

  lemma MoreFiles(c: Context, files: seq<Url>, file: Url, b: Board)
    requires Collected(c, files, b)
    ensures Collected(c, files + [file], b)
  {
    hide Locates, AllBare, AllListed;
    forall u | u in b.seen ensures FromFiles(c, files + [file], u) {
      assert FromFiles(c, files, u);
      var f :| f in files && Locates(c, f, u);
      assert f in files + [file];
    }
  }

  lemma LocationCollected(c: Context, files: seq<Url>, b: Board, loc: Url)
    requires Collected(c, files, b) && FromFiles(c, files, Norm(c, loc))
    ensures Collected(c, files, OfferLocation(c, b, loc))
  {
    hide Norm, IsNew, FromFiles;
    if IsNew(c, b, loc) {
      assert UrlsOf(OfferLocation(c, b, loc).links) == UrlsOf(b.links) + [Norm(c, loc)];
    }
  }

  lemma {:induction false} LocationsCollected(c: Context, files: seq<Url>, b: Board, locs: seq<Url>)
    requires Collected(c, files, b) && forall loc <- locs :: FromFiles(c, files, Norm(c, loc))
    ensures Collected(c, files, OfferLocations(c, b, locs).0)
    decreases |locs|
  {
    hide Norm, IsNew, Collected, FromFiles, OfferLocation;
    if locs != [] {
      assert locs[0] in locs && forall loc <- locs[1..] :: loc in locs;
      LocationCollected(c, files, b, locs[0]);
      LocationsCollected(c, files, OfferLocation(c, b, locs[0]), locs[1..]);
    }
  }

  /** Reading a file that has been fetched. */
  lemma FileCollected(c: Context, files: seq<Url>, b: Board, file: Url, locs: seq<Url>)
    requires Collected(c, files, b) && file in files && c.site.sitemap(file) == Some(Locations(locs))
    ensures Collected(c, files, OfferLocations(c, b, locs).0)
  {
    hide Norm, Collected, OfferLocations;
    forall loc | loc in locs ensures FromFiles(c, files, Norm(c, loc)) { assert Locates(c, file, Norm(c, loc)); }
    LocationsCollected(c, files, b, locs);
  }

  // ---- During the HTML phase ----

  /** One of the pages visited is that of the URL, and it could be fetched. */
  ghost predicate WasRead(c: Context, trail: seq<Visit>, done: nat, i: int, u: Url) {
    0 <= i < done <= |trail| && Norm(c, trail[i].url) == u && c.site.page(trail[i].url).Some?
  }

  ghost predicate SourceTold(c: Context, seed: Url, before: set<Url>, l: Link) {
    l.source == if l.url in before then FromSitemap else if l.url == Norm(c, seed) then FromSeed else FromHtmlLink
  }

  /** The entry has the title and the description of its page if that was read, and none otherwise. */
  ghost predicate PageTold(c: Context, trail: seq<Visit>, done: nat, l: Link) {
    && l.score.None?
    && (forall i :: WasRead(c, trail, done, i, l.url) ==>
          var p := c.site.page(trail[i].url).value; l.title == p.title && l.description == p.description)
    && (l.title.Some? || l.description.Some? ==> exists i :: WasRead(c, trail, done, i, l.url))
  }

  ghost predicate Told(c: Context, seed: Url, before: set<Url>, trail: seq<Visit>, done: nat, l: Link) {
    SourceTold(c, seed, before, l) && PageTold(c, trail, done, l)
  }

  ghost predicate AllTold(c: Context, seed: Url, before: set<Url>, b: Board, done: nat) {
    && (forall l <- b.links :: Told(c, seed, before, b.trail, done, l))
    && AllListed(before, b.links)
  }

  lemma CollectedTold(c: Context, files: seq<Url>, seed: Url, b: Board, seen: set<Url>, trail: seq<Visit>)
    requires Collected(c, files, b) && AllSeen(UrlsOf(b.links), b.seen)
    ensures AllTold(c, seed, b.seen, Board(b.links, seen, trail), 0)
  {
    hide Norm, FromFiles;
    forall l | l in b.links ensures Told(c, seed, b.seen, trail, 0, l) {
      var i :| 0 <= i < |b.links| && b.links[i] == l;
      assert UrlsOf(b.links)[i] == l.url;
    }
  }

  /** A page that is not read tells nothing. */
  lemma UnreadTold(c: Context, seed: Url, before: set<Url>, b: Board, done: nat)
    requires AllTold(c, seed, before, b, done) && done < |b.trail| && c.site.page(b.trail[done].url).None?
    ensures AllTold(c, seed, before, b, done + 1)
  {
    hide Norm, SourceTold, AllListed;
    forall l | l in b.links ensures Told(c, seed, before, b.trail, done + 1, l) {
      assert Told(c, seed, before, b.trail, done, l);
      assert forall i :: WasRead(c, b.trail, done + 1, i, l.url) <==> WasRead(c, b.trail, done, i, l.url);
    }
  }

  /** A page of another URL tells an entry nothing. */
  lemma OtherTold(c: Context, trail: seq<Visit>, done: nat, l: Link)
    requires PageTold(c, trail, done, l) && done < |trail| && Norm(c, trail[done].url) != l.url
    ensures PageTold(c, trail, done + 1, l)
  {
    hide Norm;
    assert forall i :: WasRead(c, trail, done + 1, i, l.url) <==> WasRead(c, trail, done, i, l.url);
  }

  /** The page of an entry fills it in; no other page can have done so before. */
  lemma OwnTold(c: Context, trail: seq<Visit>, done: nat, l: Link, page: Page)
    requires PageTold(c, trail, done, l) && done < |trail| && NormsDistinct(c, trail)
    requires Norm(c, trail[done].url) == l.url && c.site.page(trail[done].url) == Some(page)
    ensures PageTold(c, trail, done + 1, l.(
      title := if l.title.None? then page.title else l.title,
      description := if l.description.None? then page.description else l.description))
  {
    hide Norm;
    assert forall i :: !WasRead(c, trail, done, i, l.url);
    assert WasRead(c, trail, done + 1, done, l.url);
  }

  lemma FreshTold(c: Context, trail: seq<Visit>, done: nat, l: Link, page: Page)
    requires done < |trail| && NormsDistinct(c, trail) && l.score.None?
    requires Norm(c, trail[done].url) == l.url && c.site.page(trail[done].url) == Some(page)
    requires l.title == page.title && l.description == page.description
    ensures PageTold(c, trail, done + 1, l)
  {
    hide Norm;
    var next := done + 1;
    assert forall i :: WasRead(c, trail, next, i, l.url) ==> i == done;
    assert WasRead(c, trail, next, done, l.url);
  }

  lemma NoteFills(c: Context, seed: Url, before: set<Url>, b: Board, done: nat, k: nat, page: Page)
    requires Orderly(c, seed, before, b) && AllTold(c, seed, before, b, done) && done < |b.trail|
    requires k == PositionOf(b.links, Norm(c, b.trail[done].url)) < |b.links|
    requires c.site.page(b.trail[done].url) == Some(page)
    ensures AllTold(c, seed, before, NotePage(c, b, b.trail[done], page), done + 1)
  {
    var v, r := b.trail[done], NotePage(c, b, b.trail[done], page);
    assert UrlsOf(r.links) == UrlsOf(b.links) by { hide Norm; }
    DistinctEntries(c, seed, before, b);
    hide Norm, SourceTold, PageTold, IsUrlAllowed, Orderly;
    forall j | 0 <= j < |r.links| ensures Told(c, seed, before, r.trail, done + 1, r.links[j]) {
      assert Told(c, seed, before, b.trail, done, b.links[j]);
      if j == k {
        OwnTold(c, b.trail, done, b.links[k], page);
        SameSource(c, seed, before, b.links[k], r.links[k]);
      } else {
        OtherTold(c, b.trail, done, b.links[j]);
      }
    }
    assert AllListed(before, r.links);
  }

  lemma SameSource(c: Context, seed: Url, before: set<Url>, l: Link, m: Link)
    requires SourceTold(c, seed, before, l) && m.url == l.url && m.source == l.source
    ensures SourceTold(c, seed, before, m)
  {
    hide Norm;
  }

  lemma DistinctEntries(c: Context, seed: Url, before: set<Url>, b: Board)
    requires Orderly(c, seed, before, b)
    ensures NormsDistinct(c, b.trail) && TrailSeen(c, b.trail, b.seen) && before <= b.seen
    ensures |b.trail| > 0 && b.trail[0] == Visit(seed, 0)
    ensures forall i :: 1 <= i < |b.trail| ==> b.trail[i].depth > 0
    ensures forall i, j :: 0 <= i < j < |b.links| ==> b.links[i].url != b.links[j].url
  {
    hide Norm, IsUrlAllowed, NewlySeenQueued, AllSeen, AllAdmissible, NormalForms, NothingLost;
    forall i, j | 0 <= i < j < |b.links| ensures b.links[i].url != b.links[j].url {
      assert UrlsOf(b.links)[i] != UrlsOf(b.links)[j];
    }
  }

  lemma NoteLists(c: Context, seed: Url, before: set<Url>, b: Board, done: nat, page: Page)
    requires Orderly(c, seed, before, b) && AllTold(c, seed, before, b, done) && done < |b.trail|
    requires PositionOf(b.links, Norm(c, b.trail[done].url)) == |b.links|
    requires c.site.page(b.trail[done].url) == Some(page)
    ensures AllTold(c, seed, before, NotePage(c, b, b.trail[done], page), done + 1)
  {
    var v, r, n := b.trail[done], NotePage(c, b, b.trail[done], page), Norm(c, b.trail[done].url);
    DistinctEntries(c, seed, before, b);
    hide Norm, PageTold, IsUrlAllowed, Orderly;
    forall j | 0 <= j < |b.links| ensures Told(c, seed, before, r.trail, done + 1, b.links[j]) {
      assert Told(c, seed, before, b.trail, done, b.links[j]);
      OtherTold(c, b.trail, done, b.links[j]);
    }
    if IsUrlAllowed(c, v.url) {
      assert n !in before by { NotListed(b.links, n, before); }
      var l := Link(n, page.title, page.description, if v.depth == 0 then FromSeed else FromHtmlLink, None);
      FreshTold(c, b.trail, done, l, page);
      hide *;
      NotedSource(c, seed, before, b, done, l);
      Appended(c, seed, before, b, r, done + 1, l);
    }
  }

  lemma NotedSource(c: Context, seed: Url, before: set<Url>, b: Board, done: nat, l: Link)
    requires Orderly(c, seed, before, b) && done < |b.trail| && l.url == Norm(c, b.trail[done].url)
    requires l.url !in before && l.source == if b.trail[done].depth == 0 then FromSeed else FromHtmlLink
    ensures SourceTold(c, seed, before, l)
  {
    DistinctEntries(c, seed, before, b);
    hide Norm, Orderly;
    assert Norm(c, b.trail[0].url) == Norm(c, b.trail[done].url) <==> done == 0;
  }

  lemma Appended(c: Context, seed: Url, before: set<Url>, b: Board, r: Board, done: nat, l: Link)
    requires r.links == b.links + [l] && SourceTold(c, seed, before, l) && PageTold(c, r.trail, done, l)
    requires forall j :: 0 <= j < |b.links| ==> Told(c, seed, before, r.trail, done, b.links[j])
    requires AllListed(before, b.links)
    ensures AllTold(c, seed, before, r, done)
  {
    hide SourceTold, PageTold;
    assert UrlsOf(r.links) == UrlsOf(b.links) + [l.url];
  }

  lemma NotListed(links: seq<Link>, n: Url, before: set<Url>)
    requires PositionOf(links, n) == |links| && AllListed(before, links)
    ensures n !in before && n !in UrlsOf(links)
  {
  }

  /** Nothing has been visited yet that is listed as a new link. */
  lemma OfferTold(c: Context, seed: Url, before: set<Url>, b: Board, done: nat, out: Url, depth: nat)
    requires Orderly(c, seed, before, b) && AllTold(c, seed, before, b, done) && done <= |b.trail|
    ensures AllTold(c, seed, before, OfferLink(c, b, out, depth), done)
  {
    var n, r := Norm(c, out), OfferLink(c, b, out, depth);
    DistinctEntries(c, seed, before, b);
    hide Norm, IsUrlAllowed, Orderly, NormsDistinct;
    forall l | l in b.links ensures Told(c, seed, before, r.trail, done, l) {
      assert Told(c, seed, before, b.trail, done, l);
      PrefixTold(c, b.trail, r.trail, done, l);
    }
    if IsNew(c, b, out) {
      forall i ensures !WasRead(c, r.trail, done, i, n) {
        assert 0 <= i < |b.trail| ==> b.trail[i] in b.trail;
      }
      assert b.trail[0] in b.trail;
      var l := Link(n, None, None, FromHtmlLink, None);
      assert Told(c, seed, before, r.trail, done, l);
      assert UrlsOf(b.links + [l]) == UrlsOf(b.links) + [n];
      hide Told;
    }
  }

  lemma PrefixTold(c: Context, trail: seq<Visit>, longer: seq<Visit>, done: nat, l: Link)
    requires PageTold(c, trail, done, l) && done <= |trail| && trail <= longer
    ensures PageTold(c, longer, done, l)
  {
    hide Norm;
    assert forall i :: WasRead(c, longer, done, i, l.url) <==> WasRead(c, trail, done, i, l.url);
  }

  lemma {:induction false} OffersTold(c: Context, seed: Url, before: set<Url>, b: Board, done: nat, outs: seq<Url>,
      depth: nat)
    requires Orderly(c, seed, before, b) && AllTold(c, seed, before, b, done) && done <= |b.trail|
    requires depth < c.request.maxDepth
    ensures AllTold(c, seed, before, OfferLinks(c, b, outs, depth), done)
  {
    hide Norm, Orderly, AllTold, OfferLink;
    if outs != [] {
      var init := outs[..|outs| - 1];
      OffersTold(c, seed, before, b, done, init, depth);
      OfferLinksKeeps(c, seed, before, b, init, depth);
      OfferTold(c, seed, before, OfferLinks(c, b, init, depth), done, outs[|outs| - 1], depth);
    }
  }

  /** Visiting the next queued page keeps every entry true to what has been read. */
  lemma VisitTold(c: Context, seed: Url, before: set<Url>, b: Board, done: nat)
    requires Orderly(c, seed, before, b) && AllTold(c, seed, before, b, done) && done < |b.trail|
    ensures AllTold(c, seed, before, AfterVisit(c, b, b.trail[done]), done + 1)
  {
    var v := b.trail[done];
    var page := c.site.page(v.url);
    hide Norm, Orderly, AllTold, NotePage, OfferLinks, Extracted, IsUrlAllowed;
    if page.None? {
      UnreadTold(c, seed, before, b, done);
    } else {
      var k := PositionOf(b.links, Norm(c, v.url));
      if k < |b.links| {
        NoteFills(c, seed, before, b, done, k, page.value);
      } else {
        NoteLists(c, seed, before, b, done, page.value);
      }
      NotePageKeeps(c, seed, before, b, v, page.value);
      var noted := NotePage(c, b, v, page.value);
      if v.depth < c.request.maxDepth {
        OffersTold(c, seed, before, noted, done + 1, Extracted(c, v.url, page.value.hrefs), v.depth);
      }
    }
  }
}
