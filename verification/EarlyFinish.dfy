/**
 When a crawl that nobody disturbs can end with work left over. A worker that has popped the last target is not yet
 counted as active, so another may find nothing to do and end the crawl; and the sitemap producer is never waited for.
 With one worker and no sitemap the queue is always drained.
 */
module EarlyFinish {
  import opened Prelude
  import opened Dedupe
  import opened Filters
  import opened Protocol
  import opened Schedules
  import E = ExactlyOnce

  /** The link would be let in when it is found on the page of the seed. */
  ghost predicate Admitted(c: Config, link: Url) {
    Decide(c.options, c.guards, link, 1, {SeedTarget(c).key}) == Allowed(c.guards.keyOf(link))
  }

  /** The crawl has returned undisturbed, below its page limit. */
  ghost predicate ReturnedEarly(c: Config, s: State) {
    s.monitor == Returned && !s.mem.cancelled && s.mem.books.crawled < c.options.limit
  }

  /** The link is still queued, as a target found on the page of the seed. */
  ghost predicate Strands(c: Config, s: State, link: Url) {
    ReturnedEarly(c, s) && ChildTarget(c, SeedTarget(c), link) in s.mem.frontier.queue
  }

  /** Some schedule that nobody disturbs ends early with the link still queued. */
  ghost predicate CanStrand(c: Config, link: Url)
    requires Start(c).Ok?
  {
    exists events :: Undisturbed(events) && Strands(c, Run(c, Start(c).value, events), link)
  }

  // ---- Several workers ----

  /** Popping the last target: it has left the queue, and nobody is active yet. */
  lemma TakesLastTarget(c: Config, m: Shared, a: Answer, t: Target)
    requires Running(m) && m.books.crawled < c.options.limit && m.frontier.queue == [t]
    ensures Steps(c, m, Looping(Head), a, 4) == (m.(frontier := m.frontier.(queue := [])), Admitting(t, Starting))
  {
    var popped := m.(frontier := m.frontier.(queue := []));
    assert [t][1..] == [];
    hide Steps;
    PassesLimit(c, m, a);
    StepsConcat(c, m, Looping(Head), a, 3, 1);
    StepTo(c, m, Looping(Pop), a, 1, popped, Admitting(t, Starting));
    NoSteps(c, popped, Admitting(t, Starting), a);
  }

  /** A worker that finds the queue empty and nobody active ends the crawl. */
  lemma EndsCrawl(c: Config, m: Shared, a: Answer)
    requires Running(m) && m.books.crawled < c.options.limit && m.frontier.queue == [] && m.active == 0
    ensures Steps(c, m, Looping(Head), a, 8) == (m.(finished := true), Looping(Exited))
  {
    hide Steps;
    PassesLimit(c, m, a);
    StepsConcat(c, m, Looping(Head), a, 3, 5);
    StepTo(c, m, Looping(Pop), a, 5, m, Looping(Idle));
    StepTo(c, m, Looping(Idle), a, 4, m, Looping(RecheckQueue));
    StepTo(c, m, Looping(RecheckQueue), a, 3, m, Looping(RecheckActive));
    StepTo(c, m, Looping(RecheckActive), a, 2, m, Looping(Finish));
    StepTo(c, m, Looping(Finish), a, 1, m.(finished := true), Looping(Exited));
    NoSteps(c, m.(finished := true), Looping(Exited), a);
  }

  lemma Leaves(c: Config, m: Shared, a: Answer)
    requires m.finished && !m.cancelled
    ensures Steps(c, m, Looping(Head), a, 2) == (m, Looping(Exited))
  {
    hide Steps;
    StepTo(c, m, Looping(Head), a, 2, m, Looping(FinishedFlag));
    StepTo(c, m, Looping(FinishedFlag), a, 1, m, Looping(Exited));
    NoSteps(c, m, Looping(Exited), a);
  }

  /** Worker 0 holds the target, the next `n` workers have exited, and the others are at the head of the loop. */
  ghost predicate Departing(s: State, t: Target, n: nat) {
    && |s.workers| > n
    && s.workers[0] == Admitting(t, Starting)
    && forall i :: 1 <= i < |s.workers| ==> s.workers[i] == Looping(if i <= n then Exited else Head)
  }

  /** After the crawl was ended the other workers leave one after the other. */
  lemma {:induction false} OthersLeave(c: Config, s: State, a: Answer, t: Target, n: nat)
      returns (events: seq<Event>, s': State)
    requires s.mem.finished && !s.mem.cancelled && Departing(s, t, 1) && 1 <= n < |s.workers|
    ensures s' == Run(c, s, events) && Undisturbed(events)
    ensures s' == s.(workers := s'.workers) && |s'.workers| == |s.workers| && Departing(s', t, n)
    decreases n
  {
    hide Steps, Run, Works, Undisturbed;
    if n == 1 {
      events, s' := [], s;
      RunNothing(c, s);
      QuietWorks(0, a, 0);
      assert Works(0, a, 0) == [] by { NoWorks(a); }
    } else {
      var first, s1 := OthersLeave(c, s, a, t, n - 1);
      Leaves(c, s1.mem, a);
      s' := WorkerMoves(c, s1, n, a, 2, s1.mem, Exited);
      RunConcat(c, s, first, Works(n, a, 2));
      QuietWorks(n, a, 2);
      QuietConcat(first, Works(n, a, 2));
      events := first + Works(n, a, 2);
    }
  }

  lemma NoWorks(a: Answer)
    ensures Works(0, a, 0) == []
  {
  }

  /** What queueing the link leaves in memory. */
  ghost predicate LinkQueued(c: Config, m: Shared, m': Shared, link: Url) {
    && m'.frontier.queue == m.frontier.queue + [ChildTarget(c, SeedTarget(c), link)]
    && m'.books.crawled == m.books.crawled + 1
    && !m'.cancelled && m'.finished == m.finished
  }

  /** From the seed in hand to the exit, when the crawl is already over: the page is counted and its link queued. */
  lemma FinishesSeed(c: Config, m: Shared, link: Url) returns (m': Shared)
    requires m.finished && !m.cancelled && Start(c).Ok? && Admitted(c, link)
    requires m.frontier.visited == {SeedTarget(c).key} && m.frontier.queue == []
    ensures Steps(c, m, Admitting(SeedTarget(c), Starting), PageAnswer([link]), 14 + Gate(c)) == (m', Looping(Exited))
    ensures LinkQueued(c, m, m', link)
  {
    var a, t, child := PageAnswer([link]), SeedTarget(c), ChildTarget(c, SeedTarget(c), link);
    var m1 := CountsPage(c, m, t, [link]);
    var f := m1.frontier;
    var m2 := m1.(frontier := f.(visited := f.visited + {child.key}, issued := f.issued + [child]));
    var m3 := m2.(frontier := m2.frontier.(queue := [child]));
    AdmittedDepth(c, link);
    hide Steps, Decide;
    assert [link][1..] == [] && f.queue + [child] == [child];
    StepTo(c, m1, Discovering(t, 200, Follow([link])), a, 7, m2, Discovering(t, 200, Enqueue(child, [])));
    StepTo(c, m2, Discovering(t, 200, Enqueue(child, [])), a, 6, m3, Discovering(t, 200, Follow([])));
    var m4 := StoresAndLeaves(c, m3, t, a);
    Leaves(c, m4, a);
    StepsConcat(c, m3, Discovering(t, 200, Follow([])), a, 3, 2);
    StepsConcat(c, m, Admitting(t, Starting), a, 7 + Gate(c), 7);
    m' := m4;
  }

  lemma AdmittedDepth(c: Config, link: Url)
    requires Start(c).Ok? && Admitted(c, link)
    ensures c.options.maxDepth > 0 && c.options.maxFrontierSize > 0
  {
  }

  /** One worker takes the seed; another, seeing nothing queued and nobody active, ends the crawl; the others leave. */
  lemma EndsWithSeedInHand(c: Config, a: Answer) returns (events: seq<Event>, s: State)
    requires WorkerCount(c) >= 2 && Start(c).Ok? && !a.timeIsUp
    ensures s == Run(c, Start(c).value, events) && Undisturbed(events)
    ensures s.mem == Start(c).value.mem.(frontier := Start(c).value.mem.frontier.(queue := []), finished := true)
    ensures s.monitor == WatchCancel && |s.workers| >= 2 && Departing(s, SeedTarget(c), |s.workers| - 1)
  {
    var s0, t := Start(c).value, SeedTarget(c);
    assert |s0.workers| == WorkerCount(c) && c.options.limit >= 2;
    hide Run, Works, Decide, Steps, Start, WorkerCount, Undisturbed;
    TakesLastTarget(c, s0.mem, a, t);
    StepsRun(c, s0, 0, a, 4);
    var m1 := s0.mem.(frontier := s0.mem.frontier.(queue := []));
    var s1 := Run(c, s0, Works(0, a, 4));
    EndsCrawl(c, m1, a);
    var s2 := WorkerMoves(c, s1, 1, a, 8, m1.(finished := true), Exited);
    assert Departing(s2, t, 1);
    var rest, s3 := OthersLeave(c, s2, a, t, |s2.workers| - 1);
    QuietWorks(0, a, 4);
    QuietWorks(1, a, 8);
    var begin := QuietRuns(c, s0, Works(0, a, 4), Works(1, a, 8));
    events := QuietRuns(c, s0, begin, rest);
    s := s3;
  }

  /** With two workers or more, any link that the seed's page may lead to can be left behind. */
  lemma SeveralWorkersStrand(c: Config, link: Url)
    requires WorkerCount(c) >= 2 && Start(c).Ok? && Admitted(c, link)
    ensures CanStrand(c, link)
  {
    var a := PageAnswer([link]);
    var first, s := EndsWithSeedInHand(c, a);
    assert c.options.limit >= 2 && Start(c).value.mem.books.crawled == 0;
    assert s.mem.frontier.visited == {SeedTarget(c).key} && s.mem.frontier.queue == [];
    hide Run, Decide, Start, WorkerCount, Undisturbed;
    var rest, s' := StrandsAtTheEnd(c, s, link);
    var events := QuietRuns(c, Start(c).value, first, rest);
    assert Strands(c, s', link);
  }

  /** The worker with the seed in hand finishes its page, queues the link, and finds the crawl over. */
  lemma StrandsAtTheEnd(c: Config, s: State, link: Url) returns (events: seq<Event>, s': State)
    requires s.monitor == WatchCancel && |s.workers| >= 2 && Departing(s, SeedTarget(c), |s.workers| - 1)
    requires s.mem.finished && !s.mem.cancelled && Start(c).Ok? && Admitted(c, link)
    requires s.mem.frontier.visited == {SeedTarget(c).key} && s.mem.frontier.queue == []
    ensures Undisturbed(events) && s' == Run(c, s, events)
    ensures s'.monitor == Returned && LinkQueued(c, s.mem, s'.mem, link)
  {
    var a, n := PageAnswer([link]), 14 + Gate(c);
    var m := FinishesSeed(c, s.mem, link);
    hide Run, Works, Decide, Steps, Start, Undisturbed, LinkQueued;
    var s1 := WorkerMoves(c, s, 0, a, n, m, Exited);
    FlagsOf(c, s.mem, m, link);
    var last := MonitorEnds(c, s1, a);
    QuietWorks(0, a, n);
    events := QuietRuns(c, s, Works(0, a, n), last);
    s' := s1.(monitor := Returned);
  }

  lemma FlagsOf(c: Config, m: Shared, m': Shared, link: Url)
    requires LinkQueued(c, m, m', link)
    ensures !m'.cancelled && m'.finished == m.finished
  {
  }

  // ---- One worker and the sitemap ----

  /** The producer offers the only URL of the sitemap after everybody else has stopped. */
  lemma ProducerIsLate(c: Config, s: State, link: Url) returns (s': State)
    requires s.producer == ProducerStart && !s.mem.cancelled && s.mem.frontier.queue == []
    requires s.mem.frontier.visited == {SeedTarget(c).key} && Start(c).Ok? && Admitted(c, link)
    ensures s' == Run(c, s, Produces(PageAnswer([link]), 5))
    ensures s'.mem.frontier.queue == [ChildTarget(c, SeedTarget(c), link)]
    ensures s'.monitor == s.monitor && !s'.mem.cancelled && s'.mem.books == s.mem.books
  {
    var a, child := PageAnswer([link]), ChildTarget(c, SeedTarget(c), link);
    AdmittedDepth(c, link);
    hide Run, Decide, Start;
    var f := s.mem.frontier;
    var m := s.mem.(frontier := f.(visited := f.visited + {child.key}, issued := f.issued + [child]));
    var m' := m.(frontier := m.frontier.(queue := [child]));
    assert [link][1..] == [] && f.queue + [child] == [child];
    ProduceOnce(c, s, a, 5, s.mem, ProducerFetch);
    ProduceOnce(c, s.(producer := ProducerFetch), a, 4, s.mem, ProducerLoop([link]));
    ProduceOnce(c, s.(producer := ProducerLoop([link])), a, 3, s.mem, ProducerClaim(link, []));
    ProduceOnce(c, s.(producer := ProducerClaim(link, [])), a, 2, m, ProducerPush(child, []));
    ProduceOnce(c, s.(mem := m, producer := ProducerPush(child, [])), a, 1, m', ProducerLoop([]));
    s' := s.(mem := m', producer := ProducerLoop([]));
    RunNothing(c, s');
    assert Produces(a, 0) == [];
  }

  function Produces(a: Answer, n: nat): seq<Event> { seq(n, _ => Produce(a)) }

  lemma ProduceOnce(c: Config, s: State, a: Answer, n: nat, m: Shared, p: Producer)
    requires n > 0 && ProducerStep(c, s.mem, s.producer, a) == (m, p)
    ensures Run(c, s, Produces(a, n)) == Run(c, s.(mem := m, producer := p), Produces(a, n - 1))
  {
    assert Produces(a, n) == [Produce(a)] + Produces(a, n - 1);
    RunFirst(c, s, Produce(a), Produces(a, n - 1));
    hide ProducerStep, Run;
  }

  /** A single worker processes the seed, finds nothing more, and ends the crawl. */
  lemma LoneWorkerEnds(c: Config) returns (events: seq<Event>, s: State)
    requires WorkerCount(c) == 1 && Start(c).Ok? && c.options.limit >= 2
    ensures s == Run(c, Start(c).value, events) && Undisturbed(events)
    ensures s.monitor == Returned && !s.mem.cancelled && s.mem.books.crawled == 1
    ensures s.mem.frontier == Start(c).value.mem.frontier.(queue := []) && s.producer == Start(c).value.producer
  {
    var s0, a, n := Start(c).value, PageAnswer([]), 22 + Gate(c);
    assert s0.workers == [Looping(Head)];
    var m := LoneWorkerStops(c, s0.mem);
    hide Run, Works, Decide, Steps, Start, WorkerCount, Undisturbed;
    var s1 := WorkerMoves(c, s0, 0, a, n, m, Exited);
    var last := MonitorEnds(c, s1, a);
    QuietWorks(0, a, n);
    events := QuietRuns(c, s0, Works(0, a, n), last);
    s := s1.(monitor := Returned);
  }

  lemma LoneWorkerStops(c: Config, m: Shared) returns (m': Shared)
    requires Running(m) && m.active == 0 && m.books.crawled == 0 && c.options.limit >= 2 && |m.frontier.queue| == 1
    ensures Steps(c, m, Looping(Head), PageAnswer([]), 22 + Gate(c)) == (m', Looping(Exited))
    ensures !m'.cancelled && m'.finished && m'.books.crawled == 1 && m'.frontier == m.frontier.(queue := [])
  {
    var a, t := PageAnswer([]), m.frontier.queue[0];
    hide Steps;
    assert m.frontier.queue == [t] + [];
    PassesLimit(c, m, a);
    var m1 := PlainPage(c, m, t, []);
    EndsCrawl(c, m1, a);
    var page, all := 11 + Gate(c), 22 + Gate(c);
    hide Gate;
    StepsConcat(c, m, Looping(Head), a, 3, page);
    assert Steps(c, m, Looping(Head), a, 3 + page) == (m1, Looping(Head));
    StepsConcat(c, m, Looping(Head), a, 3 + page, 8);
    assert 3 + page + 8 == all;
    m' := m1.(finished := true);
  }

  /** A sitemap that is read late leaves its URLs behind, however many workers there are. */
  lemma LateSitemapStrands(c: Config, link: Url)
    requires WorkerCount(c) == 1 && c.options.useSitemap && c.options.limit >= 2 && Start(c).Ok? && Admitted(c, link)
    ensures CanStrand(c, link)
  {
    var a := PageAnswer([link]);
    var first, s := LoneWorkerEnds(c);
    assert s.producer == ProducerStart && s.mem.frontier.visited == {SeedTarget(c).key};
    hide Run, Decide, Start, WorkerCount, Undisturbed;
    var s' := ProducerIsLate(c, s, link);
    QuietProduces(a, 5);
    var events := QuietRuns(c, Start(c).value, first, Produces(a, 5));
    assert Strands(c, s', link);
  }

  lemma QuietProduces(a: Answer, n: nat)
    ensures Undisturbed(Produces(a, n))
  {
  }

  // ---- One worker without a sitemap, or with a limit of one page ----

  /** The seed has been counted, or is still ahead of the only worker. */
  ghost predicate SeedAhead(m: Shared, w: Worker) {
    m.books.crawled == 0 ==>
      match w
      case Looping(at) => at in {Head, FinishedFlag, Limit, Pop} && m.frontier.queue != []
      case Admitting(_, _) => true
      case Fetching(_, at) => !at.CountOutcome? && !at.CountFailure?
      case Discovering(_, _, _) => false
  }

  /** Without a producer, the only worker stops when the queue is empty or the limit reached. */
  ghost predicate StopsDry(c: Config, m: Shared, w: Worker) {
    w.Looping? ==>
      && (w.at in {Idle, RecheckQueue, RecheckActive} ==> m.frontier.queue == [])
      && (w.at in {Finish, Exited} ==> m.frontier.queue == [] || m.books.crawled >= c.options.limit)
  }

  /** The only worker ends the crawl, and the monitor waits for that. */
  ghost predicate Alone(s: State) {
    && |s.workers| == 1
    && !s.mem.cancelled
    && (s.mem.finished ==> s.workers[0] == Looping(Exited))
    && (s.monitor in {Stopping, Joining, Returned} ==> s.mem.finished)
  }

  ghost predicate Sole(c: Config, s: State) {
    && Alone(s)
    && (c.options.limit > 0 ==> SeedAhead(s.mem, s.workers[0]))
    && (!c.options.useSitemap ==> s.producer == ProducerDone && StopsDry(c, s.mem, s.workers[0]))
  }

  lemma WorkerKeepsSole(c: Config, m: Shared, w: Worker, a: Answer)
    requires !m.cancelled && (m.finished ==> w == Looping(Exited))
    ensures var r := WorkerStep(c, m, w, a); !r.0.cancelled && (r.0.finished ==> r.1 == Looping(Exited))
    ensures var r := WorkerStep(c, m, w, a); c.options.limit > 0 && SeedAhead(m, w) ==> SeedAhead(r.0, r.1)
    ensures var r := WorkerStep(c, m, w, a); StopsDry(c, m, w) ==> StopsDry(c, r.0, r.1)
  {
    hide Claim, Push, MustRetry;
  }

  lemma ProducerKeepsSole(c: Config, m: Shared, p: Producer, w: Worker, a: Answer)
    ensures var m' := ProducerStep(c, m, p, a).0;
      && m'.cancelled == m.cancelled && m'.finished == m.finished
      && (SeedAhead(m, w) ==> SeedAhead(m', w))
      && (p == ProducerDone ==> m' == m)
  {
    hide Decide;
  }

  lemma StepKeepsSole(c: Config, s: State, e: Event)
    requires Sole(c, s) && Undisturbed([e])
    ensures Sole(c, Step(c, s, e))
  {
    assert e in [e];
    match e
    case Work(i, a) =>
      if i == 0 { WorkerKeepsSole(c, s.mem, s.workers[0], a); }
      hide SeedAhead, StopsDry, WorkerStep;
    case Produce(a) =>
      ProducerKeepsSole(c, s.mem, s.producer, s.workers[0], a);
      hide SeedAhead, StopsDry, Claim, Push;
    case Watch(a) =>
    case Cancel =>
  }

  lemma {:induction false} RunKeepsSole(c: Config, events: seq<Event>)
    requires WorkerCount(c) == 1 && Start(c).Ok? && Undisturbed(events)
    ensures Sole(c, Run(c, Start(c).value, events))
  {
    if events == [] {
      hide WorkerCount, Decide;
    } else {
      var init, last := events[..|events| - 1], events[|events| - 1];
      assert Undisturbed(init) && Undisturbed([last]) by { assert events == init + [last]; }
      hide Start, Step, Sole, Undisturbed, WorkerCount;
      RunKeepsSole(c, init);
      StepKeepsSole(c, Run(c, Start(c).value, init), last);
    }
  }

  /** One worker drains the queue, or counts the only page it may. */
  lemma SoleNeverStrands(c: Config, events: seq<Event>)
    requires WorkerCount(c) == 1 && Start(c).Ok? && Undisturbed(events)
    requires !c.options.useSitemap || c.options.limit < 2
    ensures var s := Run(c, Start(c).value, events); ReturnedEarly(c, s) ==> s.mem.frontier.queue == []
  {
    RunKeepsSole(c, events);
    hide Run, Start, WorkerCount, Undisturbed;
  }

  // ---- The exact condition ----

  /**
   A link that the seed's page may lead to can be left behind by an undisturbed crawl below its page limit if and only
   if there is more than one worker, or a sitemap is read while more than one page is allowed.
   */
  lemma StrandingCondition(c: Config, link: Url)
    requires Start(c).Ok? && Admitted(c, link)
    ensures CanStrand(c, link) <==> WorkerCount(c) >= 2 || (c.options.useSitemap && c.options.limit >= 2)
  {
    assert WorkerCount(c) >= 1;
    hide Start, Admitted, Run, WorkerCount;
    if WorkerCount(c) >= 2 {
      SeveralWorkersStrand(c, link);
    } else if c.options.useSitemap && c.options.limit >= 2 {
      LateSitemapStrands(c, link);
    } else {
      forall events | Undisturbed(events) ensures !Strands(c, Run(c, Start(c).value, events), link) {
        SoleNeverStrands(c, events);
      }
    }
  }

  // ---- Configurations whose crawls always drain the queue ----

  /** Only the seed has depth zero, and it is the first target of all. */
  ghost predicate OthersBelow(f: Frontier) { forall i :: 1 <= i < |f.queue| ==> f.queue[i].depth > 0 }

  ghost predicate SeedQueued(f: Frontier) { f.queue != [] && f.queue[0].depth == 0 }

  ghost predicate BeforePop(w: Worker) { w.Looping? && w.at in {Head, FinishedFlag, Limit, Pop} }

  ghost predicate ClaimedBelow(w: Worker) { w.Discovering? && w.discovery.Enqueue? ==> w.discovery.child.depth > 0 }

  /** As long as the seed is queued nobody has done anything, so nobody has ended the crawl. */
  ghost predicate SeedHolds(c: Config, s: State) {
    && !s.mem.cancelled
    && (s.monitor in {Stopping, Joining, Returned} ==> s.mem.finished)
    && OthersBelow(s.mem.frontier)
    && (forall w <- s.workers :: ClaimedBelow(w))
    && (s.producer.ProducerPush? ==> s.producer.child.depth > 0)
    && (SeedQueued(s.mem.frontier) ==>
          !s.mem.finished && s.mem.books.crawled == 0 && forall w <- s.workers :: BeforePop(w))
  }

  lemma ClaimsBelow(c: Config, f: Frontier, u: Url, depth: nat, parent: Url)
    ensures var (f', child) := Claim(c, f, u, depth, parent);
      f'.queue == f.queue && (child.Some? ==> child.value.depth == depth)
  {
    hide Decide;
  }

  lemma StaysClaimedBelow(c: Config, m: Shared, w: Worker, a: Answer)
    requires ClaimedBelow(w)
    ensures ClaimedBelow(WorkerStep(c, m, w, a).1)
  {
    if w.Discovering? && w.discovery.Follow? && w.discovery.todo != [] {
      ClaimsBelow(c, m.frontier, w.discovery.todo[0], w.t.depth + 1, w.t.url);
    }
    hide Claim, Push, MustRetry;
  }

  /** A step keeps the queue, pops its head, or appends a claimed target. */
  lemma QueueMoves(c: Config, m: Shared, w: Worker, a: Answer)
    ensures var q, q' := m.frontier.queue, WorkerStep(c, m, w, a).0.frontier.queue;
      if w == Looping(Pop) then q' == if q == [] then q else q[1..]
      else q' == q || (w.Discovering? && w.discovery.Enqueue? && q' == q + [w.discovery.child])
  {
    if w.Discovering? && w.discovery.Follow? && w.discovery.todo != [] {
      ClaimsBelow(c, m.frontier, w.discovery.todo[0], w.t.depth + 1, w.t.url);
    }
    hide Claim, MustRetry;
  }

  lemma QueueEffect(c: Config, m: Shared, w: Worker, a: Answer)
    requires ClaimedBelow(w) && OthersBelow(m.frontier)
    ensures var r := WorkerStep(c, m, w, a);
      && ClaimedBelow(r.1) && OthersBelow(r.0.frontier)
      && (SeedQueued(r.0.frontier) ==> SeedQueued(m.frontier) && w != Looping(Pop))
  {
    StaysClaimedBelow(c, m, w, a);
    QueueMoves(c, m, w, a);
    hide WorkerStep;
  }

  lemma BeforePopKeeps(c: Config, m: Shared, w: Worker, a: Answer)
    requires BeforePop(w) && w != Looping(Pop) && !m.cancelled && !m.finished
    requires m.books.crawled == 0 && c.options.limit > 0
    ensures var r := WorkerStep(c, m, w, a); r.0 == m && BeforePop(r.1)
  {
  }

  lemma StepKeepsSeed(c: Config, s: State, e: Event)
    requires SeedHolds(c, s) && Undisturbed([e]) && c.options.limit > 0
    ensures SeedHolds(c, Step(c, s, e))
  {
    assert e in [e];
    match e
    case Work(i, a) =>
      if i < |s.workers| { WorkKeepsSeed(c, s, i, a); }
    case Produce(a) => ProduceKeepsSeed(c, s, a);
    case Watch(a) =>
    case Cancel =>
    hide WorkerStep, ProducerStep, OthersBelow, ClaimedBelow, BeforePop, SeedQueued;
  }

  lemma WorkKeepsSeed(c: Config, s: State, i: nat, a: Answer)
    requires SeedHolds(c, s) && i < |s.workers| && c.options.limit > 0
    ensures SeedHolds(c, Step(c, s, Work(i, a)))
  {
    var w := s.workers[i];
    var (m', w') := WorkerStep(c, s.mem, w, a);
    assert ClaimedBelow(w);
    QueueEffect(c, s.mem, w, a);
    KeepsFlags(c, s.mem, w, a);
    if SeedQueued(m'.frontier) {
      assert SeedQueued(s.mem.frontier) && BeforePop(w) && w != Looping(Pop);
      BeforePopKeeps(c, s.mem, w, a);
    }
    var s' := Step(c, s, Work(i, a));
    hide WorkerStep, OthersBelow, SeedQueued;
    forall v | v in s'.workers ensures ClaimedBelow(v) && (SeedQueued(m'.frontier) ==> BeforePop(v)) {
      var j :| 0 <= j < |s'.workers| && s'.workers[j] == v;
      if j != i { assert v == s.workers[j] && v in s.workers; }
    }
    hide ClaimedBelow, BeforePop;
  }

  lemma KeepsFlags(c: Config, m: Shared, w: Worker, a: Answer)
    ensures var r := WorkerStep(c, m, w, a); r.0.cancelled == m.cancelled && (m.finished ==> r.0.finished)
  {
    hide Claim, Push, MustRetry;
  }

  lemma ProduceKeepsSeed(c: Config, s: State, a: Answer)
    requires SeedHolds(c, s)
    ensures SeedHolds(c, Step(c, s, Produce(a)))
  {
    if s.producer.ProducerClaim? {
      ClaimsBelow(c, s.mem.frontier, s.producer.url, 1, c.seed);
    }
    hide Claim, ClaimedBelow, BeforePop;
  }

  lemma {:induction false} RunKeepsSeed(c: Config, events: seq<Event>)
    requires Start(c).Ok? && Undisturbed(events) && c.options.limit > 0
    ensures SeedHolds(c, Run(c, Start(c).value, events))
  {
    if events == [] {
      hide WorkerCount, Decide;
    } else {
      var init, last := events[..|events| - 1], events[|events| - 1];
      assert Undisturbed(init) && Undisturbed([last]) by { assert events == init + [last]; }
      hide Start, Step, SeedHolds, Undisturbed;
      RunKeepsSeed(c, init);
      StepKeepsSeed(c, Run(c, Start(c).value, init), last);
    }
  }

  /** A queued target below the seed was let in under a key other than the seed's. */
  lemma LeftoverIsNoSeed(c: Config, s: State, t: Target)
    requires E.Conserved(s) && E.Lineage(c, s.mem.frontier) && t in s.mem.frontier.queue && t.depth > 0
    ensures E.Admissible(c, t) && t.key != SeedTarget(c).key
  {
    var issued := s.mem.frontier.issued;
    assert t in E.AtRest(s.mem.frontier, s.mem.pages);
    hide E.AtRest, Gather, E.HeldByProducer, E.Admissible;
    assert t in E.Everywhere(s);
    assert t in multiset(issued);
    var i :| 0 <= i < |issued| && issued[i] == t;
    assert i > 0 && issued[0].key != issued[i].key;
  }

  lemma AdmittedAtOne(c: Config, t: Target)
    requires E.Admissible(c, t) && t.key != SeedTarget(c).key && t.depth > 0
    ensures Admitted(c, t.url)
  {
    DecideMeaning(c.options, c.guards, t.url, 1, {SeedTarget(c).key});
    hide Permitted;
  }

  /** What is left behind, if anything is, could have been found on the page of the seed. */
  lemma LeftoverWasAdmitted(c: Config, events: seq<Event>) returns (link: Url)
    requires Start(c).Ok? && Undisturbed(events)
    requires var s := Run(c, Start(c).value, events); ReturnedEarly(c, s) && s.mem.frontier.queue != []
    ensures Admitted(c, link)
  {
    var s := Run(c, Start(c).value, events);
    RunKeepsSeed(c, events);
    var t := s.mem.frontier.queue[0];
    assert t.depth > 0;
    E.RunHolds(c, events);
    hide *;
    assert t in s.mem.frontier.queue;
    LeftoverIsNoSeed(c, s, t);
    AdmittedAtOne(c, t);
    link := t.url;
  }

  /** Some schedule that nobody disturbs ends below the page limit with targets still queued. */
  ghost predicate MayEndEarly(c: Config)
    requires Start(c).Ok?
  {
    exists events :: Undisturbed(events) && LeavesWork(c, Run(c, Start(c).value, events))
  }

  ghost predicate LeavesWork(c: Config, s: State) { ReturnedEarly(c, s) && s.mem.frontier.queue != [] }

  /**
   Every undisturbed crawl below its page limit drains the queue, unless some link can be let in at all and there is
   more than one worker, or a sitemap is read while more than one page is allowed.
   */
  lemma DrainCondition(c: Config)
    requires Start(c).Ok?
    ensures MayEndEarly(c) <==>
            && (exists link :: Admitted(c, link))
            && (WorkerCount(c) >= 2 || (c.options.useSitemap && c.options.limit >= 2))
  {
    assert WorkerCount(c) >= 1;
    hide Start, Admitted, Run, WorkerCount, Undisturbed, ReturnedEarly;
    if MayEndEarly(c) {
      var events :| Undisturbed(events) && LeavesWork(c, Run(c, Start(c).value, events));
      var link := LeftoverWasAdmitted(c, events);
      if WorkerCount(c) == 1 && (!c.options.useSitemap || c.options.limit < 2) {
        SoleNeverStrands(c, events);
        assert false;
      }
    }
    if link :| Admitted(c, link) && (WorkerCount(c) >= 2 || (c.options.useSitemap && c.options.limit >= 2)) {
      StrandingCondition(c, link);
      var events :| Undisturbed(events) && Strands(c, Run(c, Start(c).value, events), link);
      assert LeavesWork(c, Run(c, Start(c).value, events));
    }
  }
}
