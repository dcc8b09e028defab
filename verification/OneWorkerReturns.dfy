/**
 A crawl by one worker can always be brought to its end: from every state that an honest schedule reaches, some honest
 continuation returns. Each step of the worker brings it closer: to the next page, or through the steps of one page.
 */
module OneWorkerReturns {
  import opened Prelude
  import opened Dedupe
  import opened Filters
  import opened Protocol
  import opened SingleWorker
  import opened OneWorker
  import opened Schedules
  import Accounting

  // ---- Invariants of the lone worker ----

  /** The worker alone is counted as active, and it leaves only when the crawl has been ended. */
  ghost predicate Exact(m: Shared, w: Worker) {
    m.active == Accounting.IsActive(w) && (w == Looping(Exited) ==> m.finished)
  }

  /** Where an honest schedule has got to. */
  ghost predicate Going(e: Env, s: State, whole: (Pending, seq<Target>)) {
    Simulates(e, s, whole) && Exact(s.mem, s.workers[0])
  }

  lemma WorkerKeepsExact(c: Config, m: Shared, w: Worker, a: Answer)
    requires Exact(m, w) && !m.cancelled
    ensures var r := WorkerStep(c, m, w, a); Exact(r.0, r.1)
  {
    Accounting.WorkerDebts(c, m, w, a);
    ExitsFinished(c, m, w, a);
    hide WorkerStep, Accounting.Outcomes, Accounting.Billed;
  }

  lemma ExitsFinished(c: Config, m: Shared, w: Worker, a: Answer)
    requires !m.cancelled && (w == Looping(Exited) ==> m.finished)
    ensures var r := WorkerStep(c, m, w, a); r.1 == Looping(Exited) ==> r.0.finished
  {
    hide Claim, Push, MustRetry;
  }

  lemma StepKeepsGoing(c: Config, e: Env, s: State, event: Event, whole: (Pending, seq<Target>))
    requires e == EnvOf(c, e.site) && Going(e, s, whole) && Honest(e, s, event)
    ensures Going(e, Step(c, s, event), whole)
  {
    StepSimulates(c, e, s, event, whole);
    hide Follows, Truthful;
    match event
    case Work(i, a) =>
      if i == 0 { WorkerKeepsExact(c, s.mem, s.workers[0], a); }
      hide Exact, WorkerStep;
    case Produce(a) =>
    case Watch(a) =>
  }

  lemma {:induction false} RunIsGoing(c: Config, e: Env, events: seq<Event>)
    requires e == EnvOf(c, e.site) && Solitary(c) && Start(c).Ok? && HonestRun(c, e, Start(c).value, events)
    ensures Begin(e).Ok? && Going(e, Run(c, Start(c).value, events), Crawl(e, Begin(e).value, []))
  {
    StartSimulates(c, e);
    if events == [] {
      hide Crawl, Begin, Simulates, WorkerCount, Decide;
    } else {
      hide Going, Honest, Step, Start, Begin, Crawl, Simulates;
      var init, n := events[..|events| - 1], |events| - 1;
      assert forall i :: 0 <= i < n ==> init[..i] == events[..i];
      RunIsGoing(c, e, init);
      assert Honest(e, Run(c, Start(c).value, events[..n]), events[n]);
      StepKeepsGoing(c, e, Run(c, Start(c).value, init), events[n], Crawl(e, Begin(e).value, []));
    }
  }

  // ---- Progress ----

  /** What the site answers to a worker where it is. */
  function TrueAnswer(e: Env, w: Worker): Answer {
    Answer(
      w.Admitting? && e.site.robotsAllow(w.t.url),
      if w.Fetching? && w.attempt.Fetch? then Seen(e, w.t.url, e.site.scrape(w.t.url, w.attempt.tries + 1)) else None,
      [], false, false)
  }

  lemma TrueAnswerIsTruthful(e: Env, w: Worker)
    ensures Truthful(e, w, TrueAnswer(e, w))
  {
    hide Seen;
  }

  function PagesLeft(c: Config, m: Shared): nat { Max(c.options.limit - |m.pages|, 0) }

  /** Steps of the loop and of one page, counted down. */
  function Phase(w: Worker): nat {
    match w
    case Looping(at) =>
      (match at
       case Leaving => 30 case Head => 29 case FinishedFlag => 28 case Limit => 27 case Pop => 26
       case Idle => 4 case RecheckQueue => 3 case RecheckActive => 2 case Finish => 1 case Exited => 0)
    case Admitting(_, at) =>
      (match at
       case Starting => 25 case Entry => 24 case DepthMark => 23 case RobotsGate => 22
       case Block => 21 case CountBlocked => 20 case Delay => 19)
    case Fetching(_, at) =>
      (match at
       case Fetch(_) => 18 case Retry(_) => 18 case Backoff(_) => 18
       case CountFetched(_) => 17 case CountError => 17 case CountOutcome(_) => 16 case CountFailure => 16)
    case Discovering(_, _, at) => if at.Store? then 14 else 15
  }

  /** Rounds of the retry loop, or links of the page, counted down. */
  function Rounds(c: Config, w: Worker): nat {
    match w
    case Fetching(_, at) =>
      (match at
       case Fetch(n) => 3 * Max(c.options.maxRetries - n, 0)
       case Retry(n) => 3 * Max(c.options.maxRetries - n, 0) + 2
       case Backoff(n) => 3 * Max(c.options.maxRetries - n, 0) + 1
       case _ => 0)
    case Discovering(_, _, at) =>
      (match at
       case Follow(todo) => 2 * |todo|
       case Enqueue(_, todo) => 2 * |todo| + 1
       case Store => 0)
    case _ => 0
  }

  ghost predicate Closer(c: Config, m: Shared, w: Worker, m': Shared, w': Worker) {
    || PagesLeft(c, m') < PagesLeft(c, m)
    || (PagesLeft(c, m') == PagesLeft(c, m) && Phase(w') < Phase(w))
    || (PagesLeft(c, m') == PagesLeft(c, m) && Phase(w') == Phase(w) && Rounds(c, w') < Rounds(c, w))
  }

  lemma LoopProgress(c: Config, e: Env, m: Shared, at: LoopPoint, whole: (Pending, seq<Target>))
    requires e == EnvOf(c, e.site) && !m.cancelled && Exact(m, Looping(at)) && at != Exited
    requires Follows(e, m, Looping(at), whole)
    ensures var r := LoopStep(c, m, at); Closer(c, m, Looping(at), r.0, r.1)
  {
    hide Left, StatusesRight;
  }

  lemma AdmissionProgress(c: Config, m: Shared, t: Target, at: Admission, a: Answer)
    requires !m.cancelled
    ensures var r := AdmissionStep(c, m, t, at, a); Closer(c, m, Admitting(t, at), r.0, r.1)
  {
  }

  lemma AttemptProgress(c: Config, m: Shared, t: Target, at: Attempt, a: Answer)
    requires !m.cancelled
    ensures var r := AttemptStep(c, m, t, at, a); Closer(c, m, Fetching(t, at), r.0, r.1)
  {
  }

  lemma DiscoveryProgress(c: Config, m: Shared, t: Target, status: nat, at: Discovery)
    requires |m.pages| < c.options.limit
    ensures var r := DiscoveryStep(c, m, t, status, at); Closer(c, m, Discovering(t, status, at), r.0, r.1)
  {
    hide Claim, Push;
  }

  /** Every step of the worker brings it closer to its exit. */
  lemma WorkerProgress(c: Config, e: Env, m: Shared, w: Worker, a: Answer, whole: (Pending, seq<Target>))
    requires e == EnvOf(c, e.site) && !m.cancelled && Exact(m, w) && w != Looping(Exited) && Follows(e, m, w, whole)
    ensures var r := WorkerStep(c, m, w, a); Closer(c, m, w, r.0, r.1)
  {
    match w
    case Looping(at) => LoopProgress(c, e, m, at, whole);
    case Admitting(t, at) => AdmissionProgress(c, m, t, at, a);
    case Fetching(t, at) => AttemptProgress(c, m, t, at, a);
    case Discovering(t, status, at) =>
      assert |m.pages| < c.options.limit by { hide Left, StatusesRight; }
      DiscoveryProgress(c, m, t, status, at);
    hide Closer, Follows, LoopStep, AdmissionStep, AttemptStep, DiscoveryStep;
  }

  // ---- Continuations ----

  lemma HonestConcat(c: Config, e: Env, s: State, a: seq<Event>, b: seq<Event>)
    requires HonestRun(c, e, s, a) && HonestRun(c, e, Run(c, s, a), b)
    ensures HonestRun(c, e, s, a + b) && Run(c, s, a + b) == Run(c, Run(c, s, a), b)
  {
    RunConcat(c, s, a, b);
    hide Honest, Run;
    forall i | 0 <= i < |a + b| ensures Honest(e, Run(c, s, (a + b)[..i]), (a + b)[i]) {
      if i < |a| {
        assert (a + b)[..i] == a[..i];
      } else {
        assert (a + b)[..i] == a + b[..i - |a|];
        RunConcat(c, s, a, b[..i - |a|]);
      }
    }
  }

  lemma HonestOne(c: Config, e: Env, s: State, event: Event)
    requires Honest(e, s, event)
    ensures HonestRun(c, e, s, [event]) && Run(c, s, [event]) == Step(c, s, event)
  {
    var one := [event];
    assert one[..0] == [];
    RunNothing(c, s);
    RunOne(c, s, event);
    hide Honest, Step;
  }

  /** One step, then others. */
  lemma HonestNext(c: Config, e: Env, s: State, event: Event, rest: seq<Event>)
    requires Honest(e, s, event) && HonestRun(c, e, Step(c, s, event), rest)
    ensures HonestRun(c, e, s, [event] + rest) && Run(c, s, [event] + rest) == Run(c, Step(c, s, event), rest)
  {
    HonestOne(c, e, s, event);
    hide HonestRun, Run, Step, Honest;
    HonestConcat(c, e, s, [event], rest);
  }

  /** Left to run, the worker exits. */
  lemma {:induction false} WorkerExits(c: Config, e: Env, s: State, whole: (Pending, seq<Target>))
      returns (events: seq<Event>)
    requires e == EnvOf(c, e.site) && Going(e, s, whole)
    ensures HonestRun(c, e, s, events)
    ensures Going(e, Run(c, s, events), whole) && Run(c, s, events).workers[0] == Looping(Exited)
    decreases PagesLeft(c, s.mem), Phase(s.workers[0]), Rounds(c, s.workers[0])
  {
    var w := s.workers[0];
    if w == Looping(Exited) {
      events := [];
      RunNothing(c, s);
      hide Going;
    } else {
      var a := TrueAnswer(e, w);
      TrueAnswerIsTruthful(e, w);
      WorkerProgress(c, e, s.mem, w, a, whole);
      hide Follows, Truthful, TrueAnswer, WorkerStep, PagesLeft, Phase, Rounds, HonestRun, Run;
      assert Honest(e, s, Work(0, a));
      StepKeepsGoing(c, e, s, Work(0, a), whole);
      hide Going, Honest;
      var rest := WorkerExits(c, e, Step(c, s, Work(0, a)), whole);
      HonestNext(c, e, s, Work(0, a), rest);
      events := [Work(0, a)] + rest;
    }
  }

  function Watching(m: Monitor): nat {
    match m
    case WatchCancel => 5 case WatchTime => 4 case WatchFinished => 3 case Stopping => 2 case Joining => 1
    case Returned => 0
  }

  /** Once the worker has exited, the monitor returns. */
  lemma {:induction false} MonitorJoins(c: Config, e: Env, s: State) returns (events: seq<Event>)
    requires |s.workers| == 1 && s.workers[0] == Looping(Exited) && s.mem.finished && !s.mem.cancelled
    ensures HonestRun(c, e, s, events) && Run(c, s, events).monitor == Returned
    decreases Watching(s.monitor)
  {
    if s.monitor == Returned {
      events := [];
      RunNothing(c, s);
    } else {
      var a := PageAnswer([]);
      assert forall w <- s.workers :: w == Looping(Exited);
      hide HonestRun, Run;
      var rest := MonitorJoins(c, e, Step(c, s, Watch(a)));
      HonestNext(c, e, s, Watch(a), rest);
      events := [Watch(a)] + rest;
    }
  }

  /** From every state that an honest schedule of a solitary crawl reaches, some honest continuation returns. */
  lemma SomeContinuationReturns(c: Config, site: Site, events: seq<Event>)
    requires Solitary(c) && Start(c).Ok? && HonestRun(c, EnvOf(c, site), Start(c).value, events)
    ensures exists more ::
      HonestRun(c, EnvOf(c, site), Start(c).value, events + more)
      && Run(c, Start(c).value, events + more).monitor == Returned
  {
    var e, start := EnvOf(c, site), Start(c).value;
    RunIsGoing(c, e, events);
    var more := RunsOut(c, e, Run(c, start, events), Crawl(e, Begin(e).value, []));
    hide *;
    HonestConcat(c, e, start, events, more);
  }

  lemma RunsOut(c: Config, e: Env, s: State, whole: (Pending, seq<Target>)) returns (events: seq<Event>)
    requires e == EnvOf(c, e.site) && Going(e, s, whole)
    ensures HonestRun(c, e, s, events) && Run(c, s, events).monitor == Returned
  {
    var first := WorkerExits(c, e, s, whole);
    hide HonestRun, Run, Follows;
    var second := MonitorJoins(c, e, Run(c, s, first));
    hide Going, Simulates, Exact;
    HonestConcat(c, e, s, first, second);
    events := first + second;
  }
}
