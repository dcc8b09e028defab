/**
 With one worker, no sitemap, no cancellation and no time-out, every schedule of the concurrent crawl computes the
 same thing: the pages of the sequential breadth-first crawl, in the same order.
 */
module OneWorker {
  import opened Prelude
  import opened Dedupe
  import opened Filters
  import opened Protocol
  import opened SingleWorker
  import E = ExactlyOnce
  import Engine
  import Bfs
  import BfsTheorems

  function EnvOf(c: Config, site: Site): Env { Env(c.options, c.guards, site, c.seed) }

  ghost predicate Solitary(c: Config) { WorkerCount(c) == 1 && !c.options.useSitemap }

  // ---- Honest schedules ----

  /** What the protocol sees of an answer: the status and the URLs to follow. */
  function Seen(e: Env, u: Url, r: Option<Scraped>): Option<Response> {
    if r.None? then None
    else Some(Response(r.value.status, PageLinks(e, r.value) + CanonicalLinks(e, u, r.value)))
  }

  /** The answer that the site gives to a worker where it is. */
  ghost predicate Truthful(e: Env, w: Worker, a: Answer) {
    match w
    case Admitting(t, at) => at == RobotsGate ==> a.robotsAllow == e.site.robotsAllow(t.url)
    case Fetching(t, at) => at.Fetch? ==> a.scrape == Seen(e, t.url, e.site.scrape(t.url, at.tries + 1))
    case _ => true
  }

  /** Nobody cancels, time does not run out, and the environment answers as the site does. */
  ghost predicate Honest(e: Env, s: State, event: Event) {
    match event
    case Work(i, a) => i < |s.workers| ==> Truthful(e, s.workers[i], a)
    case Produce(_) => true
    case Watch(a) => !a.timeIsUp
    case Cancel => false
  }

  ghost predicate HonestRun(c: Config, e: Env, s: State, events: seq<Event>) {
    forall i :: 0 <= i < |events| ==> Honest(e, Run(c, s, events[..i]), events[i])
  }

  // ---- The simulation ----

  function PendingOf(f: Frontier): Pending { Pending(f.queue, f.visited, |f.dropped|) }

  /** The sequential crawl, continued from here, ends in `whole`. */
  ghost predicate Left(e: Env, p: Pending, done: seq<Target>, whole: (Pending, seq<Target>)) {
    Crawl(e, p, done) == whole
  }

  /** The queue before its head was popped. */
  function Unpopped(p: Pending, t: Target): Pending { p.(queue := [t] + p.queue) }

  function Pushed(e: Env, p: Pending, t: Target): Pending {
    if |p.queue| >= e.o.maxFrontierSize then p.(refused := p.refused + 1) else p.(queue := p.queue + [t])
  }

  ghost predicate StatusesRight(e: Env, pages: seq<Page>) {
    forall p <- pages :: p.status == Engine.StatusOf(e, p.target.url)
  }

  ghost predicate LoopFollows(e: Env, m: Shared, at: LoopPoint, whole: (Pending, seq<Target>)) {
    && Left(e, PendingOf(m.frontier), E.TargetsOf(m.pages), whole)
    && m.books.crawled == |m.pages|
    && (at == Pop ==> |m.pages| < e.o.limit)
    && (at in {Idle, RecheckQueue, RecheckActive} ==> m.frontier.queue == [])
    && (at in {Finish, Exited} ==> |m.pages| >= e.o.limit || m.frontier.queue == [])
  }

  /** The target is popped but not yet settled. */
  ghost predicate Holds(e: Env, m: Shared, t: Target, whole: (Pending, seq<Target>)) {
    Left(e, Unpopped(PendingOf(m.frontier), t), E.TargetsOf(m.pages), whole) && |m.pages| < e.o.limit
  }

  ghost predicate AdmissionFollows(e: Env, m: Shared, t: Target, at: Admission, whole: (Pending, seq<Target>)) {
    && Holds(e, m, t, whole)
    && m.books.crawled == |m.pages|
    && (at in {Block, CountBlocked} ==> Blocked(e, t.url))
    && (at == Delay ==> !Blocked(e, t.url))
    && (at == RobotsGate ==> e.o.respectRobots)
  }

  ghost predicate AttemptFollows(e: Env, m: Shared, t: Target, at: Attempt, whole: (Pending, seq<Target>)) {
    && Holds(e, m, t, whole)
    && !Blocked(e, t.url)
    && var answer := FinalAnswer(e, t.url, 0);
    match at
    case Fetch(n) => m.books.crawled == |m.pages| && n <= e.o.maxRetries && FinalAnswer(e, t.url, n) == answer
    case Retry(n) => m.books.crawled == |m.pages| && n <= e.o.maxRetries && FinalAnswer(e, t.url, n) == answer
    case Backoff(n) => m.books.crawled == |m.pages| && n <= e.o.maxRetries && FinalAnswer(e, t.url, n) == answer
    case CountFetched(r) => m.books.crawled == |m.pages| && Seen(e, t.url, answer) == Some(r)
    case CountOutcome(r) => m.books.crawled == |m.pages| + 1 && Seen(e, t.url, answer) == Some(r)
    case CountError => m.books.crawled == |m.pages| && answer == None
    case CountFailure => m.books.crawled == |m.pages| + 1 && answer == None
  }

  ghost predicate DiscoveryFollows(e: Env, m: Shared, t: Target, status: nat, at: Discovery,
      whole: (Pending, seq<Target>))
  {
    var p, done := PendingOf(m.frontier), E.TargetsOf(m.pages) + [t];
    && m.books.crawled == |m.pages| + 1
    && |m.pages| < e.o.limit
    && status == Engine.StatusOf(e, t.url)
    && match at
       case Follow(todo) => Left(e, OfferAll(e, p, todo, t.depth + 1, t.url), done, whole)
       case Enqueue(child, todo) => Left(e, OfferAll(e, Pushed(e, p, child), todo, t.depth + 1, t.url), done, whole)
       case Store => Left(e, p, done, whole)
  }

  ghost predicate Follows(e: Env, m: Shared, w: Worker, whole: (Pending, seq<Target>)) {
    && StatusesRight(e, m.pages)
    && match w
       case Looping(at) => LoopFollows(e, m, at, whole)
       case Admitting(t, at) => AdmissionFollows(e, m, t, at, whole)
       case Fetching(t, at) => AttemptFollows(e, m, t, at, whole)
       case Discovering(t, status, at) => DiscoveryFollows(e, m, t, status, at, whole)
  }

  // ---- One step of the worker ----

  lemma LoopStepFollows(c: Config, e: Env, m: Shared, at: LoopPoint, whole: (Pending, seq<Target>))
    requires e == EnvOf(c, e.site) && !m.cancelled && (m.finished ==> at == Exited)
    requires Follows(e, m, Looping(at), whole)
    ensures var r := LoopStep(c, m, at); Follows(e, r.0, r.1, whole)
  {
    hide Left, StatusesRight;
    if at == Pop && m.frontier.queue != [] {
      assert [m.frontier.queue[0]] + m.frontier.queue[1..] == m.frontier.queue;
    }
  }

  lemma HeldSettles(e: Env, m: Shared, t: Target, whole: (Pending, seq<Target>))
    requires Holds(e, m, t, whole)
    ensures Left(e, Visit(e, PendingOf(m.frontier), t), E.TargetsOf(m.pages) + [t], whole)
  {
    var p := PendingOf(m.frontier);
    var q := Unpopped(p, t);
    assert q.queue[0] == t && q.queue[1..] == p.queue;
    assert q.(queue := q.queue[1..]) == p;
    hide Visit;
  }

  lemma NothingOffered(e: Env, m: Shared, t: Target, whole: (Pending, seq<Target>))
    requires Holds(e, m, t, whole) && Outgoing(e, t.url) == []
    ensures Left(e, PendingOf(m.frontier), E.TargetsOf(m.pages) + [t], whole)
  {
    HeldSettles(e, m, t, whole);
    hide Left, Holds, Outgoing;
  }

  lemma AdmissionStepFollows(c: Config, e: Env, m: Shared, t: Target, at: Admission, a: Answer,
      whole: (Pending, seq<Target>))
    requires e == EnvOf(c, e.site) && !m.cancelled && Truthful(e, Admitting(t, at), a)
    requires Follows(e, m, Admitting(t, at), whole)
    ensures var r := AdmissionStep(c, m, t, at, a); Follows(e, r.0, r.1, whole)
  {
    if at == CountBlocked {
      assert Outgoing(e, t.url) == [];
      NothingOffered(e, m, t, whole);
    }
    hide Left, StatusesRight, FinalAnswer, Outgoing;
  }

  lemma AttemptStepFollows(c: Config, e: Env, m: Shared, t: Target, at: Attempt, a: Answer,
      whole: (Pending, seq<Target>))
    requires e == EnvOf(c, e.site) && !m.cancelled && Truthful(e, Fetching(t, at), a)
    requires Follows(e, m, Fetching(t, at), whole)
    ensures var r := AttemptStep(c, m, t, at, a); Follows(e, r.0, r.1, whole)
  {
    match at
    case Fetch(n) => FetchFollows(c, e, m, t, n, a, whole);
    case CountOutcome(r) => OutcomeFollows(c, e, m, t, r, a, whole);
    case CountFailure =>
      assert Outgoing(e, t.url) == [];
      NothingOffered(e, m, t, whole);
      hide Left, StatusesRight, FinalAnswer, Outgoing;
    case _ =>
      hide Left, StatusesRight, FinalAnswer, Seen, Blocked;
  }

  lemma FetchFollows(c: Config, e: Env, m: Shared, t: Target, n: nat, a: Answer, whole: (Pending, seq<Target>))
    requires e == EnvOf(c, e.site) && Truthful(e, Fetching(t, Fetch(n)), a)
    requires Follows(e, m, Fetching(t, Fetch(n)), whole)
    ensures var r := AttemptStep(c, m, t, Fetch(n), a); Follows(e, r.0, r.1, whole)
  {
    var r := e.site.scrape(t.url, n + 1);
    assert MustRetry(c, n + 1, a) <==> IsTransient(r) && n + 1 <= e.o.maxRetries;
    assert FinalAnswer(e, t.url, n) == if MustRetry(c, n + 1, a) then FinalAnswer(e, t.url, n + 1) else r;
    hide Left, StatusesRight, FinalAnswer, MustRetry, IsTransient, Blocked, PageLinks, CanonicalLinks;
  }

  lemma OutcomeFollows(c: Config, e: Env, m: Shared, t: Target, r: Response, a: Answer, whole: (Pending, seq<Target>))
    requires e == EnvOf(c, e.site) && Follows(e, m, Fetching(t, CountOutcome(r)), whole)
    ensures var q := AttemptStep(c, m, t, CountOutcome(r), a); Follows(e, q.0, q.1, whole)
  {
    HeldSettles(e, m, t, whole);
    assert Outgoing(e, t.url) == r.links && Engine.StatusOf(e, t.url) == r.status;
    hide Left, StatusesRight, FinalAnswer, Outgoing, Engine.StatusOf, Seen, Blocked, OfferAll;
  }

  /** Claiming a URL and pushing it is offering it. */
  lemma ClaimThenPush(c: Config, e: Env, f: Frontier, u: Url, depth: nat, parent: Url)
    requires e == EnvOf(c, e.site)
    ensures var (f', child) := Claim(c, f, u, depth, parent);
      Offer(e, PendingOf(f), u, depth, parent)
      == if child.Some? then Pushed(e, PendingOf(f'), child.value) else PendingOf(f')
  {
    hide Decide;
  }

  lemma OfferFirst(e: Env, p: Pending, urls: seq<Url>, depth: nat, parent: Url)
    requires urls != []
    ensures OfferAll(e, p, urls, depth, parent)
         == OfferAll(e, Offer(e, p, urls[0], depth, parent), urls[1..], depth, parent)
  {
    var first := urls[..1];
    assert first + urls[1..] == urls;
    Engine.OfferAllAppend(e, p, first, urls[1..], depth, parent);
    assert first[..0] == [];
    hide Offer;
  }

  lemma DiscoveryStepFollows(c: Config, e: Env, m: Shared, t: Target, status: nat, at: Discovery,
      whole: (Pending, seq<Target>))
    requires e == EnvOf(c, e.site) && Follows(e, m, Discovering(t, status, at), whole)
    ensures var r := DiscoveryStep(c, m, t, status, at); Follows(e, r.0, r.1, whole)
  {
    match at
    case Follow(todo) =>
      if todo == [] {
        assert OfferAll(e, PendingOf(m.frontier), todo, t.depth + 1, t.url) == PendingOf(m.frontier);
      } else {
        OfferFirst(e, PendingOf(m.frontier), todo, t.depth + 1, t.url);
        ClaimThenPush(c, e, m.frontier, todo[0], t.depth + 1, t.url);
      }
      hide Left, StatusesRight, OfferAll, Offer, Claim, Pushed, Engine.StatusOf, PendingOf;
    case Enqueue(child, todo) =>
      assert PendingOf(Push(c, m.frontier, child)) == Pushed(e, PendingOf(m.frontier), child);
      hide Left, StatusesRight, OfferAll, Push, Pushed, Engine.StatusOf, PendingOf;
    case Store =>
      assert E.TargetsOf(m.pages + [Page(t, status)]) == E.TargetsOf(m.pages) + [t];
      assert StatusesRight(e, m.pages + [Page(t, status)]);
      hide Left, StatusesRight, Engine.StatusOf, PendingOf, E.TargetsOf;
  }

  // ---- Every schedule ----

  ghost predicate Simulates(e: Env, s: State, whole: (Pending, seq<Target>)) {
    && |s.workers| == 1
    && s.producer == ProducerDone
    && !s.mem.cancelled
    && Follows(e, s.mem, s.workers[0], whole)
    && (s.mem.finished ==> s.workers[0] == Looping(Exited))
    && (s.monitor in {Stopping, Joining, Returned} ==> s.mem.finished)
  }

  /** Only reading the cancel flag gives up a target, and only the last step of the loop ends the crawl. */
  lemma WorkerKeepsFlags(c: Config, m: Shared, w: Worker, a: Answer)
    requires !m.cancelled && (m.finished ==> w == Looping(Exited))
    ensures var r := WorkerStep(c, m, w, a); !r.0.cancelled && (r.0.finished ==> r.1 == Looping(Exited))
  {
    hide Claim, Push, MustRetry;
  }

  lemma WorkerStepFollows(c: Config, e: Env, m: Shared, w: Worker, a: Answer, whole: (Pending, seq<Target>))
    requires e == EnvOf(c, e.site) && !m.cancelled && (m.finished ==> w == Looping(Exited)) && Truthful(e, w, a)
    requires Follows(e, m, w, whole)
    ensures var r := WorkerStep(c, m, w, a); Follows(e, r.0, r.1, whole)
  {
    match w
    case Looping(at) => LoopStepFollows(c, e, m, at, whole);
    case Admitting(t, at) => AdmissionStepFollows(c, e, m, t, at, a, whole);
    case Fetching(t, at) => AttemptStepFollows(c, e, m, t, at, a, whole);
    case Discovering(t, status, at) => DiscoveryStepFollows(c, e, m, t, status, at, whole);
    hide Follows, LoopStep, AdmissionStep, AttemptStep, DiscoveryStep, Truthful;
  }

  lemma StepSimulates(c: Config, e: Env, s: State, event: Event, whole: (Pending, seq<Target>))
    requires e == EnvOf(c, e.site) && Simulates(e, s, whole) && Honest(e, s, event)
    ensures Simulates(e, Step(c, s, event), whole)
  {
    hide Truthful;
    match event
    case Work(i, a) =>
      if i == 0 {
        WorkerStepFollows(c, e, s.mem, s.workers[0], a, whole);
        WorkerKeepsFlags(c, s.mem, s.workers[0], a);
      }
      hide Follows, WorkerStep;
    case Produce(a) =>
    case Watch(a) =>
      FinishedIrrelevant(e, s.mem, s.workers[0], whole);
      hide Follows;
  }

  lemma FinishedIrrelevant(e: Env, m: Shared, w: Worker, whole: (Pending, seq<Target>))
    requires Follows(e, m, w, whole)
    ensures Follows(e, m.(finished := true), w, whole)
  {
    hide Left, StatusesRight, FinalAnswer;
  }

  lemma StartSimulates(c: Config, e: Env)
    requires e == EnvOf(c, e.site) && Solitary(c) && Start(c).Ok?
    ensures Begin(e).Ok? && Simulates(e, Start(c).value, Crawl(e, Begin(e).value, []))
  {
    hide WorkerCount, Crawl, Objection;
    var s := Start(c).value;
    assert E.TargetsOf(s.mem.pages) == [];
    assert PendingOf(s.mem.frontier) == Begin(e).value;
  }

  lemma {:induction false} RunSimulates(c: Config, e: Env, events: seq<Event>)
    requires e == EnvOf(c, e.site) && Solitary(c) && Start(c).Ok? && HonestRun(c, e, Start(c).value, events)
    ensures Begin(e).Ok? && Simulates(e, Run(c, Start(c).value, events), Crawl(e, Begin(e).value, []))
  {
    StartSimulates(c, e);
    hide Simulates, Honest, Step, Start, Begin, Crawl;
    if events != [] {
      var init, n := events[..|events| - 1], |events| - 1;
      assert forall i :: 0 <= i < n ==> init[..i] == events[..i];
      RunSimulates(c, e, init);
      assert Honest(e, Run(c, Start(c).value, events[..n]), events[n]);
      StepSimulates(c, e, Run(c, Start(c).value, init), events[n], Crawl(e, Begin(e).value, []));
    }
  }

  lemma PagesFromStatuses(e: Env, pages: seq<Page>)
    requires StatusesRight(e, pages)
    ensures pages == Engine.PagesOf(e, E.TargetsOf(pages))
  {
    hide Engine.StatusOf;
    forall i | 0 <= i < |pages| ensures pages[i] == Engine.PagesOf(e, E.TargetsOf(pages))[i] {
      assert pages[i] in pages;
    }
  }

  lemma FollowsToTheEnd(e: Env, m: Shared, whole: (Pending, seq<Target>))
    requires Follows(e, m, Looping(Exited), whole)
    ensures whole == (PendingOf(m.frontier), E.TargetsOf(m.pages))
  {
    hide StatusesRight;
  }

  /** However its steps are scheduled, a crawl by one worker that has ended has done what the sequential crawl does. */
  lemma OneWorkerIsSequential(c: Config, site: Site, events: seq<Event>)
    requires Solitary(c) && Start(c).Ok? && HonestRun(c, EnvOf(c, site), Start(c).value, events)
    requires Run(c, Start(c).value, events).workers == [Looping(Exited)]
    ensures var e, s := EnvOf(c, site), Run(c, Start(c).value, events);
      && Begin(e).Ok?
      && Crawl(e, Begin(e).value, []) == (PendingOf(s.mem.frontier), E.TargetsOf(s.mem.pages))
      && s.mem.pages == Engine.PagesOf(e, Crawl(e, Begin(e).value, []).1)
  {
    var e, s := EnvOf(c, site), Run(c, Start(c).value, events);
    RunSimulates(c, e, events);
    assert Follows(e, s.mem, Looping(Exited), Crawl(e, Begin(e).value, []));
    FollowsToTheEnd(e, s.mem, Crawl(e, Begin(e).value, []));
    assert StatusesRight(e, s.mem.pages);
    hide Follows, Simulates, StatusesRight, Crawl, Begin, Start, Run, HonestRun;
    PagesFromStatuses(e, s.mem.pages);
  }

  /** The crawl returns only after its worker has exited. */
  lemma ReturnedMeansExited(c: Config, site: Site, events: seq<Event>)
    requires Solitary(c) && Start(c).Ok? && HonestRun(c, EnvOf(c, site), Start(c).value, events)
    requires Run(c, Start(c).value, events).monitor == Returned
    ensures Run(c, Start(c).value, events).workers == [Looping(Exited)]
  {
    RunSimulates(c, EnvOf(c, site), events);
    hide Follows, Crawl, Begin, Start, Run, HonestRun;
  }

  /**
   The breadth-first theorems hold of the concurrent machine: the pages come in nondecreasing depth, and on a
   consistent site, below the page limit and without a refused push, they are the classes within `maxDepth` of the seed.
   */
  lemma OneWorkerIsBreadthFirst(c: Config, site: Site, events: seq<Event>, k: Url)
    requires Solitary(c) && Start(c).Ok? && HonestRun(c, EnvOf(c, site), Start(c).value, events)
    requires Run(c, Start(c).value, events).monitor == Returned
    ensures Bfs.SortedByDepth(E.TargetsOf(Run(c, Start(c).value, events).mem.pages))
    ensures var e, m := EnvOf(c, site), Run(c, Start(c).value, events).mem;
      BfsTheorems.Consistent(e) && m.frontier.dropped == multiset{} && |m.pages| < c.options.limit ==>
        (BfsTheorems.ProcessedClass(E.TargetsOf(m.pages), k)
         <==> exists path :: BfsTheorems.SitePath(e, path) && path[|path| - 1] == k && |path| - 1 <= c.options.maxDepth)
  {
    var e, m := EnvOf(c, site), Run(c, Start(c).value, events).mem;
    ReturnedMeansExited(c, site, events);
    OneWorkerIsSequential(c, site, events);
    BfsTheorems.ProcessedInDepthOrder(e);
    hide Crawl, Begin, Start, Run, HonestRun, BfsTheorems.Consistent, Bfs.SortedByDepth, BfsTheorems.ProcessedClass;
    hide Engine.PagesOf;
    if BfsTheorems.Consistent(e) && m.frontier.dropped == multiset{} && |m.pages| < c.options.limit {
      assert |E.TargetsOf(m.pages)| == |m.pages|;
      BfsTheorems.CompleteSearch(e, k);
    }
  }

  /**
   With capacity and page limit above the number of classes of the site, which is known before the crawl, every such
   schedule is complete: it drops nothing, drains the queue below the limit, and on a consistent site has processed
   exactly the classes within `maxDepth` of the seed.
   */
  lemma OneWorkerCoversSite(c: Config, site: Site, events: seq<Event>, universe: set<Url>, k: Url)
    requires Solitary(c) && Start(c).Ok? && HonestRun(c, EnvOf(c, site), Start(c).value, events)
    requires Run(c, Start(c).value, events).monitor == Returned
    requires BfsTheorems.Covers(EnvOf(c, site), universe)
    requires |universe| <= c.options.maxFrontierSize && |universe| < c.options.limit
    ensures var m := Run(c, Start(c).value, events).mem;
      m.frontier.dropped == multiset{} && m.frontier.queue == [] && |m.pages| < c.options.limit
    ensures var e, m := EnvOf(c, site), Run(c, Start(c).value, events).mem;
      BfsTheorems.Consistent(e) ==>
        (BfsTheorems.ProcessedClass(E.TargetsOf(m.pages), k)
         <==> exists path :: BfsTheorems.SitePath(e, path) && path[|path| - 1] == k && |path| - 1 <= c.options.maxDepth)
  {
    var e, m := EnvOf(c, site), Run(c, Start(c).value, events).mem;
    ReturnedMeansExited(c, site, events);
    OneWorkerIsSequential(c, site, events);
    hide Crawl, Begin, Start, Run, HonestRun, Engine.PagesOf;
    hide BfsTheorems.Covers, BfsTheorems.Consistent, BfsTheorems.SitePath, BfsTheorems.ProcessedClass;
    BfsTheorems.LargeEnoughCrawlIsComplete(e, universe);
    assert |E.TargetsOf(m.pages)| == |m.pages|;
    OneWorkerIsBreadthFirst(c, site, events, k);
  }

  /** Each page of such a crawl has the depth of a shortest path of links to it, unless a push was refused. */
  lemma OneWorkerFindsShortestPaths(c: Config, site: Site, events: seq<Event>, t: Target)
    requires Solitary(c) && Start(c).Ok? && HonestRun(c, EnvOf(c, site), Start(c).value, events)
    requires var s := Run(c, Start(c).value, events);
      s.monitor == Returned && s.mem.frontier.dropped == multiset{} && t in E.TargetsOf(s.mem.pages)
    requires BfsTheorems.Consistent(EnvOf(c, site))
    ensures var e := EnvOf(c, site);
      && (exists path :: BfsTheorems.SitePath(e, path) && path[|path| - 1] == t.key && |path| - 1 == t.depth)
      && (forall path :: BfsTheorems.SitePath(e, path) && path[|path| - 1] == t.key ==> t.depth <= |path| - 1)
  {
    var e := EnvOf(c, site);
    ReturnedMeansExited(c, site, events);
    OneWorkerIsSequential(c, site, events);
    hide Crawl, Begin, Start, Run, HonestRun, BfsTheorems.Consistent, Engine.PagesOf, BfsTheorems.SitePath;
    BfsTheorems.DepthIsSiteDistance(e, t);
  }
}
