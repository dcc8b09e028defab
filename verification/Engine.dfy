/** The crawl of one worker as it runs: a bounded queue, a visited set and counters, updated in place. */
module Engine {
  import opened Prelude
  import opened Dedupe
  import opened Filters
  import opened Protocol
  import opened SingleWorker
  import opened SiteGraph
  import CrawlLaws
  import E = ExactlyOnce

  /** A bounded queue that remembers its longest length and how many targets it ever took. */
  class CrawlFrontier {
    const capacity: nat
    var queue: seq<Target>
    var highWaterMark: nat
    var totalEnqueued: nat
    ghost var refused: nat

    ghost predicate Valid()
      reads this
    {
      |queue| <= highWaterMark <= capacity && |queue| <= totalEnqueued
    }

    constructor (capacity: nat)
      ensures Valid() && this.capacity == capacity
      ensures queue == [] && highWaterMark == 0 && totalEnqueued == 0 && refused == 0
    {
      this.capacity := capacity;
      queue, highWaterMark, totalEnqueued, refused := [], 0, 0, 0;
    }

    /** Appends the target unless the queue is full. */
    method TryPush(t: Target) returns (ok: bool)
      requires Valid()
      modifies this
      ensures Valid() && ok == (|old(queue)| < capacity)
      ensures queue == if ok then old(queue) + [t] else old(queue)
      ensures highWaterMark == if ok then Max(old(highWaterMark), |queue|) else old(highWaterMark)
      ensures totalEnqueued == old(totalEnqueued) + (if ok then 1 else 0)
      ensures refused == old(refused) + (if ok then 0 else 1)
    {
      if |queue| >= capacity {
        refused := refused + 1;
        return false;
      }
      queue := queue + [t];
      highWaterMark := Max(highWaterMark, |queue|);
      totalEnqueued := totalEnqueued + 1;
      return true;
    }

    /** Takes the target that has waited longest. */
    method TryPop() returns (t: Option<Target>)
      requires Valid()
      modifies this
      ensures Valid() && highWaterMark == old(highWaterMark) && totalEnqueued == old(totalEnqueued)
      ensures refused == old(refused)
      ensures if old(queue) == [] then t == None && queue == []
              else t == Some(old(queue)[0]) && queue == old(queue)[1..]
    {
      if queue == [] {
        return None;
      }
      t, queue := Some(queue[0]), queue[1..];
    }
  }

  class CrawlProgress {
    var discovered: nat
    var queued: nat
    var crawled: nat
    var succeeded: nat
    var failed: nat
    var skipped: nat
    var blocked: nat
    var dedupeHits: nat
    var retries: nat
    var depth: nat

    constructor ()
      ensures discovered == queued == crawled == succeeded == failed == 0
      ensures skipped == blocked == dedupeHits == retries == depth == 0
    {
      discovered, queued, crawled, succeeded, failed := 0, 0, 0, 0, 0;
      skipped, blocked, dedupeHits, retries, depth := 0, 0, 0, 0, 0;
    }
  }

  ghost function View(f: CrawlFrontier, d: UrlDeduplicator): Pending
    reads f, d
  {
    Pending(f.queue, d.visited, f.refused)
  }

  ghost predicate Ready(e: Env, f: CrawlFrontier)
    reads f
  {
    f.Valid() && f.capacity == e.o.maxFrontierSize && KeysAreNormalForms(e.o, e.g)
  }

  /** How many attempts the retry loop makes, after `tries` so far. */
  function AttemptsMade(e: Env, u: Url, tries: nat): nat
    decreases e.o.maxRetries + 1 - tries
  {
    if IsTransient(e.site.scrape(u, tries + 1)) && tries + 1 <= e.o.maxRetries
    then AttemptsMade(e, u, tries + 1)
    else tries + 1
  }

  lemma {:induction false} AttemptsAreBounded(e: Env, u: Url, tries: nat)
    requires tries <= e.o.maxRetries
    ensures tries < AttemptsMade(e, u, tries) <= e.o.maxRetries + 1
    ensures FinalAnswer(e, u, tries) == e.site.scrape(u, AttemptsMade(e, u, tries))
    ensures forall n :: tries < n < AttemptsMade(e, u, tries) ==> IsTransient(e.site.scrape(u, n))
    decreases e.o.maxRetries - tries
  {
    if IsTransient(e.site.scrape(u, tries + 1)) && tries + 1 <= e.o.maxRetries {
      AttemptsAreBounded(e, u, tries + 1);
    }
  }

  /** Scrapes until an attempt settles the matter or attempts run out. */
  method FetchWithRetries(e: Env, u: Url, progress: CrawlProgress) returns (r: Option<Scraped>)
    modifies progress`retries
    ensures r == FinalAnswer(e, u, 0)
    ensures progress.retries == old(progress.retries) + AttemptsMade(e, u, 0) - 1
  {
    var attempts := 0;
    while true
      invariant 0 <= attempts <= e.o.maxRetries
      invariant FinalAnswer(e, u, attempts) == FinalAnswer(e, u, 0)
      invariant AttemptsMade(e, u, attempts) == AttemptsMade(e, u, 0)
      invariant progress.retries == old(progress.retries) + attempts
      decreases e.o.maxRetries - attempts
    {
      attempts := attempts + 1;
      r := e.site.scrape(u, attempts);
      if IsTransient(r) && attempts <= e.o.maxRetries {
        progress.retries := progress.retries + 1;
        continue;
      }
      return;
    }
  }

  /** Evaluates a discovered URL and queues it when it is let in. */
  method OfferUrl(e: Env, u: Url, t: Target, f: CrawlFrontier, d: UrlDeduplicator, progress: CrawlProgress)
      returns (decision: Decision)
    requires Ready(e, f)
    modifies f, d, progress`queued
    ensures Ready(e, f)
    ensures View(f, d) == Offer(e, old(View(f, d)), u, t.depth + 1, t.url)
    ensures decision == Decide(e.o, e.g, u, t.depth + 1, old(d.visited))
    ensures progress.queued + f.refused
         == old(progress.queued) + old(f.refused) + (if decision.Allowed? then 1 else 0)
  {
    decision := EvaluateUrlForCrawl(e.o, e.g, u, t.depth + 1, d);
    if decision.Allowed? {
      var pushed := f.TryPush(Target(u, decision.key, t.depth + 1, Some(t.url)));
      if pushed {
        progress.queued := progress.queued + 1;
      }
    }
    hide Decide;
  }

  /** Every link is queued, refused by a full queue, a duplicate, or rejected by another guard. */
  method EnqueueLinks(e: Env, links: seq<Url>, t: Target, f: CrawlFrontier, d: UrlDeduplicator, progress: CrawlProgress)
    requires Ready(e, f)
    modifies f, d, progress`discovered, progress`queued, progress`dedupeHits, progress`skipped
    ensures Ready(e, f)
    ensures View(f, d) == OfferAll(e, old(View(f, d)), links, t.depth + 1, t.url)
    ensures progress.discovered == old(progress.discovered) + |links|
    ensures progress.queued + f.refused + progress.dedupeHits + progress.skipped
         == old(progress.queued) + old(f.refused) + old(progress.dedupeHits) + old(progress.skipped) + |links|
  {
    hide Decide, Offer;
    progress.discovered := progress.discovered + |links|;
    for i := 0 to |links|
      invariant Ready(e, f)
      invariant View(f, d) == OfferAll(e, old(View(f, d)), links[..i], t.depth + 1, t.url)
      invariant progress.discovered == old(progress.discovered) + |links|
      invariant progress.queued + f.refused + progress.dedupeHits + progress.skipped
             == old(progress.queued) + old(f.refused) + old(progress.dedupeHits) + old(progress.skipped) + i
    {
      assert links[..i + 1][..i] == links[..i];
      var decision := OfferUrl(e, links[i], t, f, d, progress);
      if decision.Disallowed? {
        if decision.reason == Duplicate {
          progress.dedupeHits := progress.dedupeHits + 1;
        } else {
          progress.skipped := progress.skipped + 1;
        }
      }
    }
    assert links[..|links|] == links;
  }

  lemma {:induction false} OfferAllAppend(e: Env, p: Pending, a: seq<Url>, b: seq<Url>, depth: nat, parent: Url)
    ensures OfferAll(e, p, a + b, depth, parent) == OfferAll(e, OfferAll(e, p, a, depth, parent), b, depth, parent)
  {
    hide Offer;
    if b == [] {
      assert a + b == a;
    } else {
      var front := b[..|b| - 1];
      assert (a + b)[..|a + b| - 1] == a + front;
      OfferAllAppend(e, p, a, front, depth, parent);
    }
  }

  /** Queues what a fetched page leads to. */
  method Discover(e: Env, r: Scraped, t: Target, f: CrawlFrontier, d: UrlDeduplicator, progress: CrawlProgress)
    requires Ready(e, f)
    modifies f, d, progress`discovered, progress`queued, progress`dedupeHits, progress`skipped
    ensures Ready(e, f)
    ensures View(f, d) == OfferAll(e, old(View(f, d)),
                            if t.depth < e.o.maxDepth then PageLinks(e, r) + CanonicalLinks(e, t.url, r) else [],
                            t.depth + 1, t.url)
  {
    hide Offer, Decide;
    ghost var p := View(f, d);
    if t.depth < e.o.maxDepth && ShouldFollow(e, r.kind) {
      if r.links.Some? {
        EnqueueLinks(e, r.links.value, t, f, d, progress);
      }
    }
    assert View(f, d) == OfferAll(e, p, if t.depth < e.o.maxDepth then PageLinks(e, r) else [], t.depth + 1, t.url);
    ghost var p1 := View(f, d);
    if e.o.respectCanonical && r.canonical.Some? && r.canonical.value != t.url && t.depth < e.o.maxDepth {
      assert CanonicalLinks(e, t.url, r)[..0] == [];
      var _ := OfferUrl(e, r.canonical.value, t, f, d, progress);
    }
    assert View(f, d)
        == OfferAll(e, p1, if t.depth < e.o.maxDepth then CanonicalLinks(e, t.url, r) else [], t.depth + 1, t.url);
    OfferAllAppend(e, p, PageLinks(e, r), CanonicalLinks(e, t.url, r), t.depth + 1, t.url);
    hide *;
  }

  /** What the counters say about a processed target. */
  datatype Outcome = RobotsBlocked | Success | Failure

  function OutcomeOf(e: Env, u: Url): Outcome {
    if Blocked(e, u) then RobotsBlocked
    else
      var r := FinalAnswer(e, u, 0);
      if r.Some? && 200 <= r.value.status < 400 then Success else Failure
  }

  function StatusOf(e: Env, u: Url): nat {
    if Blocked(e, u) then FORBIDDEN
    else
      var r := FinalAnswer(e, u, 0);
      if r.Some? then r.value.status else NO_STATUS
  }

  /** What the page of a URL says it is: blocked, the status of the settling answer, or no status. */
  ghost predicate StatusTold(e: Env, u: Url, status: nat) {
    if !MayFetch(e, u) then status == 403
    else exists r :: Answers(e, u, r) && status == if r.Some? then r.value.status else NO_STATUS
  }

  /** The settling answer of a URL that may be fetched has a status of success or redirection. */
  ghost predicate Succeeds(e: Env, u: Url) {
    MayFetch(e, u) && exists page :: Answers(e, u, Some(page)) && 200 <= page.status <= 399
  }

  lemma StatusMeaning(e: Env, u: Url, status: nat)
    ensures status == StatusOf(e, u) <==> StatusTold(e, u, status)
    ensures OutcomeOf(e, u) == RobotsBlocked <==> !MayFetch(e, u)
    ensures OutcomeOf(e, u) == Success <==> Succeeds(e, u)
  {
    var r := FinalAnswer(e, u, 0);
    forall x ensures Answers(e, u, x) <==> x == r { FinalAnswerMeaning(e, u, x); }
    hide FinalAnswer, Answers;
    if Succeeds(e, u) {
      var page :| Answers(e, u, Some(page)) && 200 <= page.status <= 399;
    }
    if OutcomeOf(e, u) == Success { assert Answers(e, u, Some(r.value)); }
  }

  /** How many targets end this way. */
  function Tally(e: Env, done: seq<Target>, outcome: Outcome): nat {
    if done == [] then 0
    else Tally(e, done[..|done| - 1], outcome) + if OutcomeOf(e, done[|done| - 1].url) == outcome then 1 else 0
  }

  lemma TallyNext(e: Env, done: seq<Target>, t: Target, outcome: Outcome)
    ensures Tally(e, done + [t], outcome) == Tally(e, done, outcome) + if OutcomeOf(e, t.url) == outcome then 1 else 0
  {
    assert (done + [t])[..|done|] == done;
    hide OutcomeOf;
  }

  /** The deepest level reached. */
  ghost predicate Deepest(done: seq<Target>, depth: nat) {
    (forall t <- done :: t.depth <= depth) && (depth == 0 || exists t <- done :: t.depth == depth)
  }

  lemma DeepestNext(done: seq<Target>, t: Target, depth: nat)
    requires Deepest(done, depth)
    ensures Deepest(done + [t], Max(depth, t.depth))
  {
    assert t in done + [t] && forall x <- done :: x in done + [t];
  }

  /** Fetches a target, counts it under exactly one outcome, and queues what it leads to. */
  method ProcessCrawlTarget(e: Env, t: Target, f: CrawlFrontier, d: UrlDeduplicator, progress: CrawlProgress)
      returns (page: Page)
    requires Ready(e, f)
    modifies f, d, progress
    ensures Ready(e, f)
    ensures View(f, d) == Visit(e, old(View(f, d)), t)
    ensures page == Page(t, StatusOf(e, t.url))
    ensures progress.crawled == old(progress.crawled) + 1
    ensures progress.succeeded == old(progress.succeeded) + (if OutcomeOf(e, t.url) == Success then 1 else 0)
    ensures progress.failed == old(progress.failed) + (if OutcomeOf(e, t.url) == Failure then 1 else 0)
    ensures progress.blocked == old(progress.blocked) + (if OutcomeOf(e, t.url) == RobotsBlocked then 1 else 0)
    ensures progress.depth == Max(old(progress.depth), t.depth)
  {
    hide OfferAll, FinalAnswer, AttemptsMade;
    progress.depth := Max(progress.depth, t.depth);
    if e.o.respectRobots && !e.site.robotsAllow(t.url) {
      progress.blocked := progress.blocked + 1;
      progress.crawled := progress.crawled + 1;
      OfferNone(e, View(f, d), t);
      return Page(t, FORBIDDEN);
    }
    var answer := FetchWithRetries(e, t.url, progress);
    progress.crawled := progress.crawled + 1;
    if answer.None? {
      progress.failed := progress.failed + 1;
      OfferNone(e, View(f, d), t);
      return Page(t, NO_STATUS);
    }
    var r := answer.value;
    if 200 <= r.status < 400 {
      progress.succeeded := progress.succeeded + 1;
    } else {
      progress.failed := progress.failed + 1;
    }
    Discover(e, r, t, f, d, progress);
    return Page(t, r.status);
  }

  lemma OfferNone(e: Env, p: Pending, t: Target)
    ensures OfferAll(e, p, [], t.depth + 1, t.url) == p
  {
  }

  /** The pages of a crawl, one per processed target. */
  function PagesOf(e: Env, done: seq<Target>): seq<Page> {
    seq(|done|, i requires 0 <= i < |done| => Page(done[i], StatusOf(e, done[i].url)))
  }

  datatype CrawlResult = CrawlResult(
    pages: seq<Page>, crawled: nat, succeeded: nat, failed: nat, blocked: nat, depth: nat)

  /** Lets the seed in, or says why the crawl cannot start. */
  method AdmitSeed(e: Env, f: CrawlFrontier, d: UrlDeduplicator, progress: CrawlProgress)
      returns (error: Option<StartError>)
    requires Ready(e, f) && f.queue == [] && f.refused == 0 && d.visited == {}
    modifies f, d, progress`queued, progress`discovered
    ensures Ready(e, f)
    ensures error == if Begin(e).Err? then Some(Begin(e).error) else None
    ensures Begin(e).Ok? ==> View(f, d) == Begin(e).value
  {
    hide Decide;
    var decision := EvaluateUrlForCrawl(e.o, e.g, e.seed, 0, d);
    if decision.Disallowed? {
      return Some(SeedRejected(decision.reason));
    }
    SeedKey(e);
    var pushed := f.TryPush(Target(e.seed, decision.key, 0, None));
    if !pushed {
      return Some(FrontierFull);
    }
    progress.queued, progress.discovered := progress.queued + 1, progress.discovered + 1;
    return None;
  }

  /** The counters say exactly how many of these targets ended in each way, and how deep they lay. */
  ghost predicate Counted(e: Env, done: seq<Target>, crawled: nat, succeeded: nat, failed: nat, blocked: nat,
      depth: nat)
  {
    && crawled == |done| == succeeded + failed + blocked
    && succeeded == Tally(e, done, Success)
    && failed == Tally(e, done, Failure)
    && blocked == Tally(e, done, RobotsBlocked)
    && Deepest(done, depth)
  }

  /** Pops and processes targets until the page limit or an empty queue. */
  method WorkerLoop(e: Env, f: CrawlFrontier, d: UrlDeduplicator, progress: CrawlProgress) returns (pages: seq<Page>)
    requires Ready(e, f)
    requires progress.crawled == progress.succeeded == progress.failed == progress.blocked == progress.depth == 0
    modifies f, d, progress
    ensures var done := Crawl(e, old(View(f, d)), []).1;
      && pages == PagesOf(e, done)
      && Counted(e, done, progress.crawled, progress.succeeded, progress.failed, progress.blocked, progress.depth)
  {
    hide Decide, Offer, OfferAll, StatusOf, OutcomeOf, Visit, Deepest;
    pages := [];
    ghost var done := [];
    assert Deepest(done, 0) by { NothingDeep(done); }
    while progress.crawled < e.o.limit
      invariant Ready(e, f)
      invariant Crawl(e, View(f, d), done) == Crawl(e, old(View(f, d)), [])
      invariant pages == PagesOf(e, done)
      invariant Counted(e, done, progress.crawled, progress.succeeded, progress.failed, progress.blocked,
                        progress.depth)
      decreases e.o.limit - progress.crawled
    {
      var next := f.TryPop();
      if next.None? {
        break;
      }
      DeepestNext(done, next.value, progress.depth);
      var page := ProcessCrawlTarget(e, next.value, f, d, progress);
      TallyNext(e, done, next.value, Success);
      TallyNext(e, done, next.value, Failure);
      TallyNext(e, done, next.value, RobotsBlocked);
      hide Tally;
      pages := pages + [page];
      done := done + [next.value];
      CountOnce(e, next.value.url);
    }
  }

  lemma NothingDeep(done: seq<Target>)
    requires done == []
    ensures Deepest(done, 0)
  {
  }

  /**
   Runs a whole crawl and reports its pages in processing order. The targets of the pages are explained by the links
   of the site, their statuses by its answers, and the counters by both.
   */
  method ExecuteCrawl(e: Env) returns (result: Result<CrawlResult, StartError>)
    requires KeysAreNormalForms(e.o, e.g)
    ensures result.Err? <==> Begin(e).Err?
    ensures result.Err? ==> result.error == Begin(e).error
    ensures result.Err? <==> !Permitted(e.g, e.seed) || e.o.maxFrontierSize == 0
    ensures result.Ok? ==>
      var pages, done := result.value.pages, E.TargetsOf(result.value.pages);
      && done == Crawl(e, Begin(e).value, []).1 && pages == PagesOf(e, done)
      && CrawlLaws.Explained(e, done)
      && (forall p <- pages :: StatusTold(e, p.target.url, p.status))
      && Counted(e, done, result.value.crawled, result.value.succeeded, result.value.failed, result.value.blocked,
                 result.value.depth)
  {
    hide Begin, Crawl, KeysAreNormalForms, Counted;
    var d := new UrlDeduplicator();
    var f := new CrawlFrontier(e.o.maxFrontierSize);
    var progress := new CrawlProgress();
    CrawlLaws.BeginMeaning(e);
    var error := AdmitSeed(e, f, d, progress);
    if error.Some? {
      return Err(error.value);
    }
    var pages := WorkerLoop(e, f, d, progress);
    ghost var done := Crawl(e, Begin(e).value, []).1;
    PagesTold(e, done);
    hide PagesOf;
    CrawlLaws.ProcessedIsExplained(e);
    return Ok(CrawlResult(
      pages, progress.crawled, progress.succeeded, progress.failed, progress.blocked, progress.depth));
  }

  lemma PagesTold(e: Env, done: seq<Target>)
    ensures E.TargetsOf(PagesOf(e, done)) == done
    ensures forall p <- PagesOf(e, done) :: StatusTold(e, p.target.url, p.status)
  {
    hide StatusOf, StatusTold;
    var pages := PagesOf(e, done);
    forall p | p in pages ensures StatusTold(e, p.target.url, p.status) {
      StatusMeaning(e, p.target.url, p.status);
    }
  }

  lemma SeedKey(e: Env)
    requires Decide(e.o, e.g, e.seed, 0, {}).Allowed?
    ensures Decide(e.o, e.g, e.seed, 0, {}).key == e.g.keyOf(e.seed)
  {
    hide Objection;
  }

  lemma CountOnce(e: Env, u: Url)
    ensures OutcomeOf(e, u) in {RobotsBlocked, Success, Failure}
  {
  }
}
