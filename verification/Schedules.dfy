/** Building schedules of the concurrent crawl: one worker or the monitor taking several steps in a row. */
module Schedules {
  import opened Prelude
  import opened Dedupe
  import opened Filters
  import opened Protocol

  lemma {:induction false} RunConcat(c: Config, s: State, a: seq<Event>, b: seq<Event>)
    ensures Run(c, s, a + b) == Run(c, Run(c, s, a), b)
  {
    hide Step;
    if b == [] {
      assert a + b == a;
    } else {
      var init := b[..|b| - 1];
      assert (a + b)[..|a + b| - 1] == a + init;
      RunConcat(c, s, a, init);
    }
  }

  lemma RunNothing(c: Config, s: State)
    ensures Run(c, s, []) == s
  {
  }

  lemma RunOne(c: Config, s: State, e: Event)
    ensures Run(c, s, [e]) == Step(c, s, e)
  {
    var first := [e];
    assert first[..0] == [];
    hide Step;
  }

  lemma RunFirst(c: Config, s: State, e: Event, rest: seq<Event>)
    ensures Run(c, s, [e] + rest) == Run(c, Step(c, s, e), rest)
  {
    RunConcat(c, s, [e], rest);
    RunOne(c, s, e);
    hide Step, Run;
  }

  // ---- Workers ----

  /** One worker taking `n` steps, with the same answers at hand each time. */
  function Steps(c: Config, m: Shared, w: Worker, a: Answer, n: nat): (Shared, Worker)
    decreases n
  {
    if n == 0 then (m, w)
    else
      var (m', w') := WorkerStep(c, m, w, a);
      Steps(c, m', w', a, n - 1)
  }

  function Works(i: nat, a: Answer, n: nat): seq<Event> { seq(n, _ => Work(i, a)) }

  lemma {:induction false} StepsRun(c: Config, s: State, i: nat, a: Answer, n: nat)
    requires i < |s.workers|
    ensures var (m, w) := Steps(c, s.mem, s.workers[i], a, n);
      Run(c, s, Works(i, a, n)) == s.(mem := m, workers := s.workers[i := w])
    decreases n
  {
    hide WorkerStep;
    if n == 0 {
      assert s.workers[i := s.workers[i]] == s.workers;
    } else {
      var next := Step(c, s, Work(i, a));
      assert Works(i, a, n) == [Work(i, a)] + Works(i, a, n - 1);
      RunFirst(c, s, Work(i, a), Works(i, a, n - 1));
      StepsRun(c, next, i, a, n - 1);
      var (m, w) := Steps(c, next.mem, next.workers[i], a, n - 1);
      assert next.workers[i := w] == s.workers[i := w];
    }
  }

  lemma StepTo(c: Config, m: Shared, w: Worker, a: Answer, n: nat, m': Shared, w': Worker)
    requires n > 0 && WorkerStep(c, m, w, a) == (m', w')
    ensures Steps(c, m, w, a, n) == Steps(c, m', w', a, n - 1)
  {
    hide WorkerStep;
  }

  lemma NoSteps(c: Config, m: Shared, w: Worker, a: Answer)
    ensures Steps(c, m, w, a, 0) == (m, w)
  {
  }

  lemma {:induction false} StepsConcat(c: Config, m: Shared, w: Worker, a: Answer, j: nat, k: nat)
    ensures var (m', w') := Steps(c, m, w, a, j); Steps(c, m, w, a, j + k) == Steps(c, m', w', a, k)
    decreases j
  {
    hide WorkerStep;
    if j > 0 {
      var (m', w') := WorkerStep(c, m, w, a);
      StepsConcat(c, m', w', a, j - 1, k);
    }
  }

  /** One worker takes some steps and comes to a point of the loop. */
  lemma WorkerMoves(c: Config, s: State, i: nat, a: Answer, n: nat, m: Shared, at: LoopPoint) returns (s': State)
    requires i < |s.workers| && Steps(c, s.mem, s.workers[i], a, n) == (m, Looping(at))
    ensures s' == Run(c, s, Works(i, a, n)) == s.(mem := m, workers := s.workers[i := Looping(at)])
  {
    StepsRun(c, s, i, a, n);
    hide Steps, Run, Works;
    s' := Run(c, s, Works(i, a, n));
  }

  // ---- One page ----

  /** Every page may be fetched and has these links; so has the sitemap. */
  function PageAnswer(links: seq<Url>): Answer { Answer(true, Some(Response(200, links)), links, false, false) }

  /** The extra step of a crawl that asks robots.txt. */
  function Gate(c: Config): nat { if c.options.respectRobots then 1 else 0 }

  /** The crawl is going on. */
  ghost predicate Running(m: Shared) { !m.cancelled && !m.finished }

  /** Passing the limit check. */
  lemma PassesLimit(c: Config, m: Shared, a: Answer)
    requires Running(m) && m.books.crawled < c.options.limit
    ensures Steps(c, m, Looping(Head), a, 3) == (m, Looping(Pop))
  {
    hide Steps;
    StepTo(c, m, Looping(Head), a, 3, m, Looping(FinishedFlag));
    StepTo(c, m, Looping(FinishedFlag), a, 2, m, Looping(Limit));
    StepTo(c, m, Looping(Limit), a, 1, m, Looping(Pop));
    NoSteps(c, m, Looping(Pop), a);
  }

  /** From the mark of the depth to the delay, through robots.txt if it is respected. */
  lemma PassesRobots(c: Config, m: Shared, t: Target, a: Answer, n: nat) returns (m': Shared)
    requires a.robotsAllow
    ensures Steps(c, m, Admitting(t, DepthMark), a, n + 1 + Gate(c)) == Steps(c, m', Admitting(t, Delay), a, n)
    ensures m' == m.(books := m.books.(depth := m'.books.depth))
  {
    hide Steps;
    m' := m.(books := m.books.(depth := Max(m.books.depth, t.depth)));
    if c.options.respectRobots {
      StepTo(c, m, Admitting(t, DepthMark), a, n + 2, m', Admitting(t, RobotsGate));
      StepTo(c, m', Admitting(t, RobotsGate), a, n + 1, m', Admitting(t, Delay));
    } else {
      StepTo(c, m, Admitting(t, DepthMark), a, n + 1, m', Admitting(t, Delay));
    }
  }

  /** From becoming active to the list of links: the page is counted. */
  lemma CountsPage(c: Config, m: Shared, t: Target, links: seq<Url>) returns (m': Shared)
    requires !m.cancelled
    ensures Steps(c, m, Admitting(t, Starting), PageAnswer(links), 7 + Gate(c))
         == (m', Discovering(t, 200, Follow(if t.depth < c.options.maxDepth then links else [])))
    ensures !m'.cancelled && m'.finished == m.finished && m'.books.crawled == m.books.crawled + 1
    ensures m'.frontier == m.frontier && m'.active == m.active + 1
  {
    var a, r := PageAnswer(links), Response(200, links);
    hide Steps;
    var m1 := m.(active := m.active + 1);
    StepTo(c, m, Admitting(t, Starting), a, 7 + Gate(c), m1, Admitting(t, Entry));
    StepTo(c, m1, Admitting(t, Entry), a, 6 + Gate(c), m1, Admitting(t, DepthMark));
    var m2 := PassesRobots(c, m1, t, a, 4);
    StepTo(c, m2, Admitting(t, Delay), a, 4, m2, Fetching(t, Fetch(0)));
    var m3 := m2.(books := m2.books.(scrapes := m2.books.scrapes + 1), tries := m2.tries[t.key := 1]);
    StepTo(c, m2, Fetching(t, Fetch(0)), a, 3, m3, Fetching(t, CountFetched(r)));
    var m4 := m3.(books := m3.books.(crawled := m3.books.crawled + 1));
    StepTo(c, m3, Fetching(t, CountFetched(r)), a, 2, m4, Fetching(t, CountOutcome(r)));
    m' := m4.(books := m4.books.(succeeded := m4.books.succeeded + 1));
    var w' := Discovering(t, 200, Follow(if t.depth < c.options.maxDepth then links else []));
    StepTo(c, m4, Fetching(t, CountOutcome(r)), a, 1, m', w');
    NoSteps(c, m', w', a);
  }

  /** From the pop to the list of links. */
  lemma PopsAndCounts(c: Config, m: Shared, t: Target, rest: seq<Target>, links: seq<Url>) returns (m': Shared)
    requires Running(m) && m.frontier.queue == [t] + rest
    ensures Steps(c, m, Looping(Pop), PageAnswer(links), 8 + Gate(c))
         == (m', Discovering(t, 200, Follow(if t.depth < c.options.maxDepth then links else [])))
    ensures Running(m') && m'.books.crawled == m.books.crawled + 1
    ensures m'.frontier == m.frontier.(queue := rest) && m'.active == m.active + 1
  {
    hide Steps;
    assert m.frontier.queue[0] == t && m.frontier.queue[1..] == rest;
    var m0 := m.(frontier := m.frontier.(queue := rest));
    StepTo(c, m, Looping(Pop), PageAnswer(links), 8 + Gate(c), m0, Admitting(t, Starting));
    m' := CountsPage(c, m0, t, links);
  }

  /** From the empty list of links back to the head of the loop. */
  lemma StoresAndLeaves(c: Config, m: Shared, t: Target, a: Answer) returns (m': Shared)
    ensures Steps(c, m, Discovering(t, 200, Follow([])), a, 3) == (m', Looping(Head))
    ensures m'.cancelled == m.cancelled && m'.finished == m.finished
    ensures m'.books == m.books && m'.frontier == m.frontier && m'.active == m.active - 1
  {
    hide Steps;
    StepTo(c, m, Discovering(t, 200, Follow([])), a, 3, m, Discovering(t, 200, Store));
    var m1 := m.(pages := m.pages + [Page(t, 200)]);
    StepTo(c, m, Discovering(t, 200, Store), a, 2, m1, Looping(Leaving));
    m' := m1.(active := m1.active - 1);
    StepTo(c, m1, Looping(Leaving), a, 1, m', Looping(Head));
    NoSteps(c, m', Looping(Head), a);
  }

  /** A page without links, from the pop back to the head of the loop. */
  lemma PlainPage(c: Config, m: Shared, t: Target, rest: seq<Target>) returns (m': Shared)
    requires Running(m) && m.frontier.queue == [t] + rest
    ensures Steps(c, m, Looping(Pop), PageAnswer([]), 11 + Gate(c)) == (m', Looping(Head))
    ensures Running(m') && m'.books.crawled == m.books.crawled + 1
    ensures m'.frontier == m.frontier.(queue := rest) && m'.active == m.active
  {
    hide Steps;
    var m1 := PopsAndCounts(c, m, t, rest, []);
    m' := StoresAndLeaves(c, m1, t, PageAnswer([]));
    StepsConcat(c, m, Looping(Pop), PageAnswer([]), 8 + Gate(c), 3);
  }

  /** The target that a link on the page of `t` becomes. */
  function ChildTarget(c: Config, t: Target, link: Url): Target {
    Target(link, c.guards.keyOf(link), t.depth + 1, Some(t.url))
  }

  // ---- Monitor ----

  function Watches(a: Answer, n: nat): seq<Event> { seq(n, _ => Watch(a)) }

  lemma WatchOnce(c: Config, s: State, a: Answer, n: nat)
    requires n > 0
    ensures Run(c, s, Watches(a, n)) == Run(c, MonitorStep(s, a), Watches(a, n - 1))
  {
    assert Watches(a, n) == [Watch(a)] + Watches(a, n - 1);
    RunFirst(c, s, Watch(a), Watches(a, n - 1));
    hide MonitorStep, Run;
  }

  /** Once the flag is set, the monitor stops watching and waits for the workers. */
  lemma MonitorStops(c: Config, s: State, a: Answer)
    requires s.monitor == WatchCancel && s.mem.finished && !s.mem.cancelled && !a.timeIsUp
    ensures Run(c, s, Watches(a, 4)) == s.(monitor := Joining)
  {
    WatchOnce(c, s, a, 4);
    var s1 := MonitorStep(s, a);
    WatchOnce(c, s1, a, 3);
    var s2 := MonitorStep(s1, a);
    WatchOnce(c, s2, a, 2);
    var s3 := MonitorStep(s2, a);
    WatchOnce(c, s3, a, 1);
    hide Run;
    RunNothing(c, MonitorStep(s3, a));
    assert Watches(a, 0) == [];
  }

  lemma MonitorReturns(c: Config, s: State, a: Answer)
    requires s.monitor == Joining && forall w <- s.workers :: w == Looping(Exited)
    ensures Run(c, s, Watches(a, 1)) == s.(monitor := Returned)
  {
    WatchOnce(c, s, a, 1);
    hide Run;
    RunNothing(c, MonitorStep(s, a));
    assert Watches(a, 0) == [];
  }

  // ---- Schedules that nobody disturbs ----

  /** Nobody cancels and time does not run out. */
  ghost predicate Undisturbed(events: seq<Event>) {
    forall e <- events :: !e.Cancel? && (e.Watch? ==> !e.a.timeIsUp)
  }

  lemma QuietWorks(i: nat, a: Answer, n: nat)
    ensures Undisturbed(Works(i, a, n))
  {
  }

  lemma QuietWatches(a: Answer, n: nat)
    requires !a.timeIsUp
    ensures Undisturbed(Watches(a, n))
  {
  }

  lemma QuietConcat(a: seq<Event>, b: seq<Event>)
    requires Undisturbed(a) && Undisturbed(b)
    ensures Undisturbed(a + b)
  {
  }

  /** Two undisturbed schedules, one after the other. */
  lemma QuietRuns(c: Config, s: State, a: seq<Event>, b: seq<Event>) returns (events: seq<Event>)
    requires Undisturbed(a) && Undisturbed(b)
    ensures events == a + b && Undisturbed(events) && Run(c, s, events) == Run(c, Run(c, s, a), b)
  {
    RunConcat(c, s, a, b);
    QuietConcat(a, b);
    events := a + b;
  }

  /** When the flag is set and every worker has exited, the crawl returns. */
  lemma MonitorEnds(c: Config, s: State, a: Answer) returns (events: seq<Event>)
    requires s.monitor == WatchCancel && s.mem.finished && !s.mem.cancelled && !a.timeIsUp
    requires forall w <- s.workers :: w == Looping(Exited)
    ensures Undisturbed(events) && Run(c, s, events) == s.(monitor := Returned)
  {
    MonitorStops(c, s, a);
    MonitorReturns(c, s.(monitor := Joining), a);
    QuietWatches(a, 4);
    QuietWatches(a, 1);
    hide Run, Watches, Undisturbed;
    events := QuietRuns(c, s, Watches(a, 4), Watches(a, 1));
  }
}
