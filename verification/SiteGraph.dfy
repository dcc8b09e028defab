/** The graph of a site: which page links to which URL, told by the site's answers and the options alone. */
module SiteGraph {
  import opened Prelude
  import opened Dedupe
  import opened Filters
  import opened Protocol
  import opened SingleWorker

  /** No answer, or a status that asks for another attempt. */
  ghost predicate Transient(r: Option<Scraped>) {
    r.Some? ==> r.value.status in {408, 425, 429, 500, 502, 503, 504}
  }

  /** Attempt `n` settles the matter: the first that is not transient, or the last that is allowed. */
  ghost predicate SettlesAt(e: Env, u: Url, n: nat) {
    && 1 <= n <= e.o.maxRetries + 1
    && (forall k :: 1 <= k < n ==> Transient(e.site.scrape(u, k)))
    && (n <= e.o.maxRetries ==> !Transient(e.site.scrape(u, n)))
  }

  /** The answer of the settling attempt. */
  ghost predicate Answers(e: Env, u: Url, r: Option<Scraped>) {
    exists n: nat :: SettlesAt(e, u, n) && e.site.scrape(u, n) == r
  }

  ghost predicate MayFetch(e: Env, u: Url) { e.o.respectRobots ==> e.site.robotsAllow(u) }

  /** HTML pages are followed; feeds if the options ask for feeds or for documents; other content if for documents. */
  ghost predicate Followed(o: Options, kind: ContentKind) {
    match kind
    case Html => true
    case Feed => o.followFeedLinks || o.followDocumentLinks
    case OtherContent => o.followDocumentLinks
  }

  /** The page lists the URL among links that are followed, or names it as another canonical URL that is respected. */
  ghost predicate LeadsFrom(o: Options, u: Url, page: Scraped, v: Url) {
    || (Followed(o, page.kind) && page.links.Some? && v in page.links.value)
    || (o.respectCanonical && page.canonical == Some(v) && v != u)
  }

  /** An edge of the graph. */
  ghost predicate HasLink(e: Env, u: Url, v: Url) {
    MayFetch(e, u) && exists page :: Answers(e, u, Some(page)) && LeadsFrom(e.o, u, page, v)
  }

  lemma TransientMeaning(r: Option<Scraped>)
    ensures IsTransient(r) <==> Transient(r)
  {
  }

  lemma {:induction false} FinalAnswerSettles(e: Env, u: Url, tries: nat) returns (n: nat)
    requires tries <= e.o.maxRetries && forall k :: 1 <= k <= tries ==> Transient(e.site.scrape(u, k))
    ensures SettlesAt(e, u, n) && FinalAnswer(e, u, tries) == e.site.scrape(u, n)
    decreases e.o.maxRetries - tries
  {
    TransientMeaning(e.site.scrape(u, tries + 1));
    hide Transient, IsTransient;
    n := tries + 1;
    if IsTransient(e.site.scrape(u, tries + 1)) && tries + 1 <= e.o.maxRetries {
      n := FinalAnswerSettles(e, u, tries + 1);
    }
  }

  /** The retry loop ends with the answer of the settling attempt, and there is only one. */
  lemma FinalAnswerMeaning(e: Env, u: Url, r: Option<Scraped>)
    ensures Answers(e, u, r) <==> r == FinalAnswer(e, u, 0)
  {
    var n := FinalAnswerSettles(e, u, 0);
    hide Transient, FinalAnswer;
    if m: nat :| SettlesAt(e, u, m) && e.site.scrape(u, m) == r {
      assert m == n;
    }
  }

  /** What processing a page discovers is exactly what it has links to. */
  lemma OutgoingIsLinks(e: Env, u: Url)
    ensures forall v :: v in Outgoing(e, u) <==> HasLink(e, u, v)
  {
    var r := FinalAnswer(e, u, 0);
    FinalAnswerMeaning(e, u, r);
    forall page ensures Answers(e, u, Some(page)) <==> Some(page) == r {
      FinalAnswerMeaning(e, u, Some(page));
    }
    hide Answers, FinalAnswer;
  }

}
