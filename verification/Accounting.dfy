/**
 The counters of a crawl balance in every interleaving: each running total differs from what it should be by exactly
 the contributions that workers in particular states still owe. After the join nothing is owed.
 */
module Accounting {
  import opened Prelude
  import opened Dedupe
  import opened Filters
  import opened Protocol

  /** Between `active_workers += 1` and `active_workers -= 1`. */
  function IsActive(w: Worker): int {
    match w
    case Looping(at) => if at == Leaving then 1 else 0
    case Admitting(_, at) => if at == Starting then 0 else 1
    case Fetching(_, _) => 1
    case Discovering(_, _, _) => 1
  }

  /** Passed the limit check, and may still count a page. */
  function Uncounted(w: Worker): int {
    match w
    case Looping(at) => if at == Pop then 1 else 0
    case Admitting(_, _) => 1
    case Fetching(_, at) => if at.CountOutcome? || at.CountFailure? then 0 else 1
    case Discovering(_, _, _) => 0
  }

  /** Counted its page but has not stored it. */
  function Unstored(w: Worker): int {
    match w
    case Looping(_) => 0
    case Admitting(_, _) => 0
    case Fetching(_, at) => if at.CountOutcome? || at.CountFailure? then 1 else 0
    case Discovering(_, _, _) => 1
  }

  /** Pages counted less outcomes counted: a blocked page counts its outcome first, any other page last. */
  function Unsettled(w: Worker): int {
    match w
    case Looping(_) => 0
    case Admitting(_, at) => if at == CountBlocked then -1 else 0
    case Fetching(_, at) => if at.CountOutcome? || at.CountFailure? then 1 else 0
    case Discovering(_, _, _) => 0
  }

  /** Scrapes made that neither a retry nor a counted page accounts for yet. */
  function Unbilled(w: Worker): int {
    match w
    case Looping(_) => 0
    case Admitting(_, at) => if at == CountBlocked then 1 else 0
    case Fetching(_, at) => if at.Retry? || at.CountFetched? || at.CountError? then 1 else 0
    case Discovering(_, _, _) => 0
  }

  function Outcomes(b: Books): int { b.succeeded + b.failed + b.blocked }

  function Billed(b: Books): int { b.retries + b.crawled - b.blocked }

  ghost predicate Balanced(c: Config, s: State) {
    && |s.workers| == WorkerCount(c)
    && s.mem.active == Sum(s.workers, IsActive)
    && s.mem.books.crawled == |s.mem.pages| + Sum(s.workers, Unstored)
    && s.mem.books.crawled == Outcomes(s.mem.books) + Sum(s.workers, Unsettled)
    && s.mem.books.scrapes == Billed(s.mem.books) + Sum(s.workers, Unbilled)
  }

  /** Pages counted, plus pages that workers past the limit check may still count, stay within the overshoot. */
  ghost predicate WithinOvershoot(c: Config, s: State) {
    s.mem.books.crawled + Sum(s.workers, Uncounted) <= c.options.limit + WorkerCount(c) - 1
  }

  // ---- One step ----

  /** What one step of a worker changes in shared memory it changes in its own debts. */
  ghost predicate DebtsMatch(m: Shared, w: Worker, m': Shared, w': Worker) {
    && m'.active - m.active == IsActive(w') - IsActive(w)
    && |m'.pages| - m'.books.crawled + Unstored(w') == |m.pages| - m.books.crawled + Unstored(w)
    && m'.books.crawled - Outcomes(m'.books) - Unsettled(w') == m.books.crawled - Outcomes(m.books) - Unsettled(w)
    && m'.books.scrapes - Billed(m'.books) - Unbilled(w') == m.books.scrapes - Billed(m.books) - Unbilled(w)
  }

  lemma LoopDebts(c: Config, m: Shared, at: LoopPoint)
    ensures var r := LoopStep(c, m, at); DebtsMatch(m, Looping(at), r.0, r.1)
  {
  }

  lemma AdmissionDebts(c: Config, m: Shared, t: Target, at: Admission, a: Answer)
    ensures var r := AdmissionStep(c, m, t, at, a); DebtsMatch(m, Admitting(t, at), r.0, r.1)
  {
  }

  lemma AttemptDebts(c: Config, m: Shared, t: Target, at: Attempt, a: Answer)
    ensures var r := AttemptStep(c, m, t, at, a); DebtsMatch(m, Fetching(t, at), r.0, r.1)
  {
    hide MustRetry;
  }

  lemma DiscoveryDebts(c: Config, m: Shared, t: Target, status: nat, at: Discovery)
    ensures var r := DiscoveryStep(c, m, t, status, at); DebtsMatch(m, Discovering(t, status, at), r.0, r.1)
  {
    hide Claim, Push;
  }

  lemma WorkerDebts(c: Config, m: Shared, w: Worker, a: Answer)
    ensures var r := WorkerStep(c, m, w, a); DebtsMatch(m, w, r.0, r.1)
  {
    hide DebtsMatch, LoopStep, AdmissionStep, AttemptStep, DiscoveryStep;
    match w
    case Looping(at) => LoopDebts(c, m, at);
    case Admitting(t, at) => AdmissionDebts(c, m, t, at, a);
    case Fetching(t, at) => AttemptDebts(c, m, t, at, a);
    case Discovering(t, status, at) => DiscoveryDebts(c, m, t, status, at);
  }

  /** Only passing the limit check, below the limit, lets a worker count a further page. */
  ghost predicate KeepsAllowance(c: Config, m: Shared, w: Worker, m': Shared, w': Worker) {
    || m'.books.crawled + Uncounted(w') <= m.books.crawled + Uncounted(w)
    || (m' == m && m.books.crawled < c.options.limit)
  }

  lemma WorkerAllowance(c: Config, m: Shared, w: Worker, a: Answer)
    ensures var r := WorkerStep(c, m, w, a); KeepsAllowance(c, m, w, r.0, r.1)
  {
    hide Claim, Push, MustRetry;
  }

  lemma WorkBalances(c: Config, s: State, i: nat, a: Answer)
    requires Balanced(c, s) && i < |s.workers|
    ensures Balanced(c, Step(c, s, Work(i, a)))
  {
    WorkerDebts(c, s.mem, s.workers[i], a);
    var (m', w') := WorkerStep(c, s.mem, s.workers[i], a);
    SumUpdate(s.workers, i, w', IsActive);
    SumUpdate(s.workers, i, w', Unstored);
    SumUpdate(s.workers, i, w', Unsettled);
    SumUpdate(s.workers, i, w', Unbilled);
    hide WorkerStep, WorkerCount, Sum, IsActive, Unstored, Unsettled, Unbilled;
  }

  lemma WorkStaysWithin(c: Config, s: State, i: nat, a: Answer)
    requires WithinOvershoot(c, s) && |s.workers| == WorkerCount(c) && i < |s.workers|
    ensures WithinOvershoot(c, Step(c, s, Work(i, a)))
  {
    WorkerAllowance(c, s.mem, s.workers[i], a);
    var (m', w') := WorkerStep(c, s.mem, s.workers[i], a);
    var ws := s.workers[i := w'];
    SumUpdate(s.workers, i, w', Uncounted);
    SumIndicator(ws, Uncounted);
    hide WorkerStep, WorkerCount, Sum, Uncounted;
  }

  /** A step of any other process leaves pages, counters and active workers alone. */
  lemma OthersKeepBooks(c: Config, s: State, e: Event)
    requires !e.Work?
    ensures var s' := Step(c, s, e);
      && s'.workers == s.workers && s'.mem.active == s.mem.active
      && s'.mem.books == s.mem.books && s'.mem.pages == s.mem.pages
  {
    hide Claim, Push;
  }

  lemma StepKeepsBooks(c: Config, s: State, e: Event)
    requires Balanced(c, s) && WithinOvershoot(c, s)
    ensures Balanced(c, Step(c, s, e)) && WithinOvershoot(c, Step(c, s, e))
  {
    if e.Work? {
      if e.i < |s.workers| {
        WorkBalances(c, s, e.i, e.a);
        WorkStaysWithin(c, s, e.i, e.a);
      }
    } else {
      OthersKeepBooks(c, s, e);
    }
    hide WorkerStep, ProducerStep, WorkerCount;
  }

  // ---- Every schedule ----

  lemma {:induction false} RunKeepsBooks(c: Config, events: seq<Event>)
    requires Start(c).Ok?
    ensures var s := Run(c, Start(c).value, events); Balanced(c, s) && WithinOvershoot(c, s)
  {
    if events == [] {
      var s := Start(c).value;
      SumZero(s.workers, IsActive);
      SumZero(s.workers, Unstored);
      SumZero(s.workers, Unsettled);
      SumZero(s.workers, Unbilled);
      SumZero(s.workers, Uncounted);
      hide Sum;
    } else {
      var before := events[..|events| - 1];
      RunKeepsBooks(c, before);
      StepKeepsBooks(c, Run(c, Start(c).value, before), events[|events| - 1]);
      hide Step, Start, Balanced, WithinOvershoot;
    }
  }

  /** Concurrent workers overrun the page limit by at most one page each, less one. */
  lemma OvershootBound(c: Config, s: State)
    requires Reachable(c, s)
    ensures s.mem.books.crawled <= c.options.limit + WorkerCount(c) - 1
  {
    hide WorkerCount, Run, Start, Sum, Balanced;
    var events :| s == Run(c, Start(c).value, events);
    RunKeepsBooks(c, events);
    SumIndicator(s.workers, Uncounted);
  }

  /** `active_workers` counts exactly the workers between its increment and its decrement, so it never underflows. */
  lemma ActiveWorkersExact(c: Config, s: State)
    requires Reachable(c, s)
    ensures 0 <= s.mem.active <= WorkerCount(c)
    ensures s.mem.active == 0 <==> forall w <- s.workers :: IsActive(w) == 0
  {
    var events :| s == Run(c, Start(c).value, events);
    RunKeepsBooks(c, events);
    hide WorkerCount, Run, Start, Sum;
    SumIndicator(s.workers, IsActive);
    if forall w <- s.workers :: IsActive(w) == 0 {
      SumZero(s.workers, IsActive);
    } else {
      var i :| 0 <= i < |s.workers| && IsActive(s.workers[i]) != 0;
      SumAtLeastOne(s.workers, IsActive, i);
    }
  }

  // ---- After the join ----

  ghost predicate Joined(s: State) {
    s.monitor == Returned ==> forall w <- s.workers :: w == Looping(Exited)
  }

  lemma StepKeepsJoined(c: Config, s: State, e: Event)
    requires Joined(s)
    ensures Joined(Step(c, s, e))
  {
    if e.Work? {
      hide WorkerStep;
      if e.i < |s.workers| && s.monitor == Returned {
        assert s.workers[e.i] in s.workers;
        ExitedStays(c, s.mem, e.a);
        assert s.workers[e.i := Looping(Exited)] == s.workers;
      }
    } else {
      hide ProducerStep;
    }
  }

  lemma ExitedStays(c: Config, m: Shared, a: Answer)
    ensures WorkerStep(c, m, Looping(Exited), a) == (m, Looping(Exited))
  {
  }

  lemma {:induction false} RunKeepsJoined(c: Config, events: seq<Event>)
    requires Start(c).Ok?
    ensures Joined(Run(c, Start(c).value, events))
  {
    if events != [] {
      var before := events[..|events| - 1];
      RunKeepsJoined(c, before);
      StepKeepsJoined(c, Run(c, Start(c).value, before), events[|events| - 1]);
      hide Step, Start, Joined;
    }
  }

  /** The result of a crawl adds up exactly, cancelled and timed-out crawls included. */
  lemma ExactAccounting(c: Config, s: State)
    requires Reachable(c, s) && s.monitor == Returned
    ensures var b := s.mem.books;
      && |s.mem.pages| == b.crawled == b.succeeded + b.failed + b.blocked
      && b.scrapes == b.retries + b.crawled - b.blocked
      && s.mem.active == 0
  {
    hide WorkerCount, Run, Start, Sum;
    var events :| s == Run(c, Start(c).value, events);
    RunKeepsBooks(c, events);
    RunKeepsJoined(c, events);
    forall i | 0 <= i < |s.workers| ensures s.workers[i] == Looping(Exited) {
      assert s.workers[i] in s.workers;
    }
    SumZero(s.workers, IsActive);
    SumZero(s.workers, Unstored);
    SumZero(s.workers, Unsettled);
    SumZero(s.workers, Unbilled);
  }
}
