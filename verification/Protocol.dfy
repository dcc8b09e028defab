/**
 The multi-worker crawl as a state machine: W workers, a detached sitemap producer and a monitor share a bounded
 queue, a visited set, a page list and counters. Every step is one atomic access; the environment answers every
 network question arbitrarily and may cancel at any moment. A schedule is a sequence of events, so a fact about
 every schedule is a fact about every interleaving.
 */
module Protocol {
  import opened Prelude
  import opened Dedupe
  import opened Filters

  datatype Config = Config(options: Options, guards: Guards, seed: Url, maxConcurrentFetches: nat)

  function WorkerCount(c: Config): nat {
    Max(1, Min(c.maxConcurrentFetches, c.options.limit))
  }

  /** What a fetch finally says about a page, as far as the crawl looks at it. */
  datatype Response = Response(status: nat, links: seq<Url>)

  /** The environment's answers; a step looks only at the one it asked for. */
  datatype Answer = Answer(
    robotsAllow: bool,
    scrape: Option<Response>,
    sitemapUrls: seq<Url>,
    preferCancel: bool,
    timeIsUp: bool)

  datatype Page = Page(target: Target, status: nat)

  /** Where a worker without a target is; the comments name the access that leaving the point performs. */
  datatype LoopPoint =
    | Head            // read the cancel flag
    | FinishedFlag    // read crawl_finished
    | Limit           // read pages_crawled
    | Pop             // pop the queue
    | Leaving         // active_workers -= 1
    | Idle            // read active_workers
    | RecheckQueue    // read the queue length
    | RecheckActive   // read active_workers
    | Finish          // set crawl_finished
    | Exited

  /** Between popping a target and fetching it. */
  datatype Admission =
    | Starting        // active_workers += 1
    | Entry           // read the cancel flag
    | DepthMark       // raise current_depth
    | RobotsGate      // ask robots.txt
    | Block           // pages_blocked_by_robots += 1
    | CountBlocked    // pages_crawled += 1
    | Delay           // read the cancel flag

  /** The retry loop and the counters after it; `tries` counts finished attempts. */
  datatype Attempt =
    | Fetch(tries: nat)          // scrape
    | Retry(tries: nat)          // retries_total += 1
    | Backoff(tries: nat)        // wait for the delay or the cancel flag
    | CountFetched(r: Response)  // pages_crawled += 1
    | CountOutcome(r: Response)  // pages_succeeded or pages_failed += 1
    | CountError                 // pages_crawled += 1
    | CountFailure               // pages_failed += 1

  /** Turning the links of a page into targets, then storing the page. */
  datatype Discovery =
    | Follow(todo: seq<Url>)                   // claim the next link
    | Enqueue(child: Target, todo: seq<Url>)   // push the claimed link
    | Store                                    // push onto the page list

  datatype Worker =
    | Looping(at: LoopPoint)
    | Admitting(t: Target, admission: Admission)
    | Fetching(t: Target, attempt: Attempt)
    | Discovering(t: Target, status: nat, discovery: Discovery)

  datatype Producer =
    | ProducerStart                                // read the cancel flag
    | ProducerFetch                                // ask for the sitemap
    | ProducerLoop(todo: seq<Url>)                 // read the cancel flag
    | ProducerClaim(url: Url, todo: seq<Url>)      // claim
    | ProducerPush(child: Target, todo: seq<Url>)  // push the claimed target
    | ProducerDone

  datatype Monitor =
    | WatchCancel | WatchTime | WatchFinished  // the three tests of the monitor loop
    | Stopping                                 // set crawl_finished
    | Joining                                  // wait for every worker
    | Returned

  /** The queue and the visited set; `issued`, `dropped` and `abandoned` only record history. */
  datatype Frontier = Frontier(
    queue: seq<Target>,
    visited: set<Url>,
    issued: seq<Target>,
    dropped: multiset<Target>,
    abandoned: multiset<Target>)

  /** The progress counters; `scrapes` only records history. */
  datatype Books = Books(
    crawled: nat, succeeded: nat, failed: nat, blocked: nat, retries: nat, depth: nat, scrapes: nat)

  /** The shared memory; `tries` only records how often each key was scraped. */
  datatype Shared = Shared(
    frontier: Frontier,
    books: Books,
    pages: seq<Page>,
    tries: map<Url, nat>,
    active: int,
    cancelled: bool,
    finished: bool)

  datatype State = State(mem: Shared, workers: seq<Worker>, producer: Producer, monitor: Monitor)

  datatype Event = Work(i: nat, a: Answer) | Produce(a: Answer) | Watch(a: Answer) | Cancel

  predicate IsRetryableStatus(status: nat) { status in {408, 425, 429, 500, 502, 503, 504} }

  const FORBIDDEN: nat := 403
  const NO_STATUS: nat := 0

  /** Claims a URL for the crawl: it joins the visited set and the history, or nothing happens. */
  function Claim(c: Config, f: Frontier, u: Url, depth: nat, parent: Url): (Frontier, Option<Target>) {
    var d := Decide(c.options, c.guards, u, depth, f.visited);
    if d.Allowed? then
      var t := Target(u, d.key, depth, Some(parent));
      (f.(visited := f.visited + {d.key}, issued := f.issued + [t]), Some(t))
    else (f, None)
  }

  /** Pushes a claimed target, or drops it when the queue is full. */
  function Push(c: Config, f: Frontier, t: Target): Frontier {
    if |f.queue| >= c.options.maxFrontierSize then f.(dropped := f.dropped + multiset{t})
    else f.(queue := f.queue + [t])
  }

  /** Gives up a target because the crawl was cancelled. */
  function Abandon(m: Shared, t: Target): (Shared, Worker) {
    (m.(frontier := m.frontier.(abandoned := m.frontier.abandoned + multiset{t})), Looping(Leaving))
  }

  function LoopStep(c: Config, m: Shared, at: LoopPoint): (Shared, Worker) {
    match at
    case Head => (m, Looping(if m.cancelled then Exited else FinishedFlag))
    case FinishedFlag => (m, Looping(if m.finished then Exited else Limit))
    case Limit => (m, Looping(if m.books.crawled >= c.options.limit then Finish else Pop))
    case Pop =>
      var f := m.frontier;
      if f.queue == [] then (m, Looping(Idle))
      else (m.(frontier := f.(queue := f.queue[1..])), Admitting(f.queue[0], Starting))
    case Leaving => (m.(active := m.active - 1), Looping(Head))
    case Idle => (m, Looping(if m.active == 0 then RecheckQueue else Head))
    case RecheckQueue => (m, Looping(if m.frontier.queue == [] then RecheckActive else Head))
    case RecheckActive => (m, Looping(if m.active == 0 then Finish else Head))
    case Finish => (m.(finished := true), Looping(Exited))
    case Exited => (m, Looping(Exited))
  }

  function AdmissionStep(c: Config, m: Shared, t: Target, at: Admission, a: Answer): (Shared, Worker) {
    var b := m.books;
    match at
    case Starting => (m.(active := m.active + 1), Admitting(t, Entry))
    case Entry => if m.cancelled then Abandon(m, t) else (m, Admitting(t, DepthMark))
    case DepthMark =>
      (m.(books := b.(depth := Max(b.depth, t.depth))),
       Admitting(t, if c.options.respectRobots then RobotsGate else Delay))
    case RobotsGate => (m, Admitting(t, if a.robotsAllow then Delay else Block))
    case Block => (m.(books := b.(blocked := b.blocked + 1)), Admitting(t, CountBlocked))
    case CountBlocked => (m.(books := b.(crawled := b.crawled + 1)), Discovering(t, FORBIDDEN, Store))
    case Delay => if m.cancelled then Abandon(m, t) else (m, Fetching(t, Fetch(0)))
  }

  function AttemptStep(c: Config, m: Shared, t: Target, at: Attempt, a: Answer): (Shared, Worker) {
    var b := m.books;
    match at
    case Fetch(n) =>
      (m.(books := b.(scrapes := b.scrapes + 1), tries := m.tries[t.key := n + 1]),
       Fetching(t, if MustRetry(c, n + 1, a) then Retry(n + 1)
                   else if a.scrape.Some? then CountFetched(a.scrape.value)
                   else CountError))
    case Retry(n) => (m.(books := b.(retries := b.retries + 1)), Fetching(t, Backoff(n)))
    case Backoff(n) => if m.cancelled && a.preferCancel then Abandon(m, t) else (m, Fetching(t, Fetch(n)))
    case CountFetched(r) => (m.(books := b.(crawled := b.crawled + 1)), Fetching(t, CountOutcome(r)))
    case CountOutcome(r) =>
      (m.(books := if 200 <= r.status < 400 then b.(succeeded := b.succeeded + 1) else b.(failed := b.failed + 1)),
       Discovering(t, r.status, Follow(if t.depth < c.options.maxDepth then r.links else [])))
    case CountError => (m.(books := b.(crawled := b.crawled + 1)), Fetching(t, CountFailure))
    case CountFailure => (m.(books := b.(failed := b.failed + 1)), Discovering(t, NO_STATUS, Store))
  }

  function DiscoveryStep(c: Config, m: Shared, t: Target, status: nat, at: Discovery): (Shared, Worker) {
    match at
    case Follow(todo) =>
      if todo == [] then (m, Discovering(t, status, Store))
      else
        var (f, child) := Claim(c, m.frontier, todo[0], t.depth + 1, t.url);
        (m.(frontier := f),
         Discovering(t, status, if child.Some? then Enqueue(child.value, todo[1..]) else Follow(todo[1..])))
    case Enqueue(child, todo) => (m.(frontier := Push(c, m.frontier, child)), Discovering(t, status, Follow(todo)))
    case Store => (m.(pages := m.pages + [Page(t, status)]), Looping(Leaving))
  }

  /** One step of a worker. */
  function WorkerStep(c: Config, m: Shared, w: Worker, a: Answer): (Shared, Worker) {
    match w
    case Looping(at) => LoopStep(c, m, at)
    case Admitting(t, at) => AdmissionStep(c, m, t, at, a)
    case Fetching(t, at) => AttemptStep(c, m, t, at, a)
    case Discovering(t, status, at) => DiscoveryStep(c, m, t, status, at)
  }

  /** A failed or retryable attempt is repeated while attempts remain. */
  predicate MustRetry(c: Config, attempts: nat, a: Answer) {
    (a.scrape.None? || IsRetryableStatus(a.scrape.value.status)) && attempts <= c.options.maxRetries
  }

  function ProducerStep(c: Config, m: Shared, p: Producer, a: Answer): (Shared, Producer) {
    match p
    case ProducerStart => (m, if m.cancelled then ProducerDone else ProducerFetch)
    case ProducerFetch => (m, ProducerLoop(a.sitemapUrls))
    case ProducerLoop(todo) =>
      (m, if todo == [] || m.cancelled then ProducerDone else ProducerClaim(todo[0], todo[1..]))
    case ProducerClaim(u, todo) =>
      var (f', child) := Claim(c, m.frontier, u, 1, c.seed);
      (m.(frontier := f'), if child.Some? then ProducerPush(child.value, todo) else ProducerLoop(todo))
    case ProducerPush(child, todo) => (m.(frontier := Push(c, m.frontier, child)), ProducerLoop(todo))
    case ProducerDone => (m, ProducerDone)
  }

  function MonitorStep(s: State, a: Answer): State {
    match s.monitor
    case WatchCancel => s.(monitor := if s.mem.cancelled then Stopping else WatchTime)
    case WatchTime => s.(monitor := if a.timeIsUp then Stopping else WatchFinished)
    case WatchFinished => s.(monitor := if s.mem.finished then Stopping else WatchCancel)
    case Stopping => s.(mem := s.mem.(finished := true), monitor := Joining)
    case Joining => if forall w <- s.workers :: w == Looping(Exited) then s.(monitor := Returned) else s
    case Returned => s
  }

  function Step(c: Config, s: State, e: Event): State {
    match e
    case Work(i, a) =>
      if i < |s.workers| then
        var (m, w) := WorkerStep(c, s.mem, s.workers[i], a);
        s.(mem := m, workers := s.workers[i := w])
      else s
    case Produce(a) =>
      var (m, p) := ProducerStep(c, s.mem, s.producer, a);
      s.(mem := m, producer := p)
    case Watch(a) => MonitorStep(s, a)
    case Cancel => s.(mem := s.mem.(cancelled := true))
  }

  datatype StartError = SeedRejected(reason: Reason) | FrontierFull

  function SeedTarget(c: Config): Target { Target(c.seed, c.guards.keyOf(c.seed), 0, None) }

  /** Admits the seed and spawns the processes, or reports why the crawl cannot start. */
  function Start(c: Config): Result<State, StartError> {
    var d := Decide(c.options, c.guards, c.seed, 0, {});
    if d.Disallowed? then Err(SeedRejected(d.reason))
    else if c.options.maxFrontierSize == 0 then Err(FrontierFull)
    else
      var t := SeedTarget(c);
      Ok(State(
        Shared(
          Frontier([t], {t.key}, [t], multiset{}, multiset{}),
          Books(0, 0, 0, 0, 0, 0, 0), [], map[], 0, false, false),
        seq(WorkerCount(c), _ => Looping(Head)),
        if c.options.useSitemap then ProducerStart else ProducerDone,
        WatchCancel))
  }

  /** The state after a schedule. */
  function Run(c: Config, s: State, events: seq<Event>): State {
    if events == [] then s else Step(c, Run(c, s, events[..|events| - 1]), events[|events| - 1])
  }

  /** The states that some schedule reaches from the start of the crawl. */
  ghost predicate Reachable(c: Config, s: State) {
    Start(c).Ok? && exists events :: s == Run(c, Start(c).value, events)
  }
}
