/**
 A crawl by one worker that is cancelled, or runs out of time, at any moment has stored the first pages of the
 sequential crawl, in order: an interruption never reorders pages and never leaves a hole.
 */
module Interrupted {
  import opened Prelude
  import opened Dedupe
  import opened Filters
  import opened Protocol
  import opened SingleWorker
  import opened OneWorker
  import E = ExactlyOnce
  import Engine
  import CrawlLaws

  /** The environment answers as the site does; anybody may cancel, and time may run out. */
  ghost predicate TrueStep(e: Env, s: State, event: Event) {
    event.Work? && event.i < |s.workers| ==> Truthful(e, s.workers[event.i], event.a)
  }

  ghost predicate TrueRun(c: Config, e: Env, s: State, events: seq<Event>) {
    forall i :: 0 <= i < |events| ==> TrueStep(e, Run(c, s, events[..i]), events[i])
  }

  /** The worker has seen a flag and does no more work. */
  ghost predicate Halting(m: Shared, w: Worker) {
    w == Looping(Exited) || (m.cancelled && w in {Looping(Leaving), Looping(Head)})
  }

  /** What is stored is a beginning of the sequential crawl; and the worker follows that crawl, or is halting. */
  ghost predicate Beginning(e: Env, m: Shared, w: Worker, whole: (Pending, seq<Target>)) {
    && StatusesRight(e, m.pages)
    && E.TargetsOf(m.pages) <= whole.1
    && (Follows(e, m, w, whole) || Halting(m, w))
  }

  function Flagged(m: Shared, cancelled: bool, finished: bool): Shared {
    m.(cancelled := cancelled, finished := finished)
  }

  lemma FlagsIrrelevant(e: Env, m: Shared, w: Worker, whole: (Pending, seq<Target>), cancelled: bool, finished: bool)
    requires Follows(e, m, w, whole)
    ensures Follows(e, Flagged(m, cancelled, finished), w, whole)
  {
    hide Left, StatusesRight, FinalAnswer;
  }

  /** A step either goes as it would without the flags, or it has read one of them and leaves the pages alone. */
  ghost predicate SameButFlags(m: Shared, r: (Shared, Worker), free: (Shared, Worker)) {
    || r == (Flagged(free.0, m.cancelled, m.finished || free.0.finished), free.1)
    || (Halting(r.0, r.1) && r.0.pages == m.pages)
  }

  lemma LoopFlags(c: Config, m: Shared, at: LoopPoint)
    ensures SameButFlags(m, LoopStep(c, m, at), LoopStep(c, Flagged(m, false, false), at))
  {
  }

  lemma OtherFlags(c: Config, m: Shared, w: Worker, a: Answer)
    requires !w.Looping?
    ensures SameButFlags(m, WorkerStep(c, m, w, a), WorkerStep(c, Flagged(m, false, false), w, a))
  {
    hide Claim, Push, MustRetry;
  }

  lemma LeftExtends(e: Env, p: Pending, done: seq<Target>, whole: (Pending, seq<Target>))
    requires Left(e, p, done, whole)
    ensures done <= whole.1
  {
    CrawlLaws.CrawlExtends(e, p, done);
    hide Crawl;
  }

  lemma FollowsMeansBeginning(e: Env, m: Shared, w: Worker, whole: (Pending, seq<Target>))
    requires Follows(e, m, w, whole)
    ensures Beginning(e, m, w, whole)
  {
    var p, done := PendingOf(m.frontier), E.TargetsOf(m.pages);
    hide PendingOf, E.TargetsOf, StatusesRight, Left, FinalAnswer, Engine.StatusOf, Seen, OfferAll, Pushed;
    match w
    case Looping(_) => LeftExtends(e, p, done, whole);
    case Admitting(t, _) => LeftExtends(e, Unpopped(p, t), done, whole);
    case Fetching(t, _) => LeftExtends(e, Unpopped(p, t), done, whole);
    case Discovering(t, _, Follow(todo)) =>
      LeftExtends(e, OfferAll(e, p, todo, t.depth + 1, t.url), done + [t], whole);
    case Discovering(t, _, Enqueue(child, todo)) =>
      LeftExtends(e, OfferAll(e, Pushed(e, p, child), todo, t.depth + 1, t.url), done + [t], whole);
    case Discovering(t, _, Store) => LeftExtends(e, p, done + [t], whole);
  }

  lemma HaltingStays(c: Config, m: Shared, w: Worker, a: Answer)
    requires Halting(m, w)
    ensures var r := WorkerStep(c, m, w, a); Halting(r.0, r.1) && r.0.pages == m.pages
  {
  }

  lemma WorkerKeepsBeginning(c: Config, e: Env, m: Shared, w: Worker, a: Answer, whole: (Pending, seq<Target>))
    requires e == EnvOf(c, e.site) && Truthful(e, w, a) && Beginning(e, m, w, whole)
    ensures var r := WorkerStep(c, m, w, a); Beginning(e, r.0, r.1, whole)
  {
    var r := WorkerStep(c, m, w, a);
    if Follows(e, m, w, whole) {
      var calm := Flagged(m, false, false);
      var free := WorkerStep(c, calm, w, a);
      if w.Looping? { LoopFlags(c, m, w.at); } else { OtherFlags(c, m, w, a); }
      hide Follows, WorkerStep, Halting, StatusesRight, Truthful, E.TargetsOf;
      FlagsIrrelevant(e, m, w, whole, false, false);
      WorkerStepFollows(c, e, calm, w, a, whole);
      FlagsIrrelevant(e, free.0, free.1, whole, m.cancelled, m.finished || free.0.finished);
      if Follows(e, r.0, r.1, whole) {
        FollowsMeansBeginning(e, r.0, r.1, whole);
      }
    } else {
      HaltingStays(c, m, w, a);
      hide Follows, WorkerStep, Halting, StatusesRight, Truthful, E.TargetsOf;
    }
  }

  // ---- Every schedule ----

  ghost predicate Begun(e: Env, s: State, whole: (Pending, seq<Target>)) {
    |s.workers| == 1 && s.producer == ProducerDone && Beginning(e, s.mem, s.workers[0], whole)
  }

  lemma FlagsKeepBeginning(e: Env, m: Shared, w: Worker, whole: (Pending, seq<Target>), cancelled: bool, finished: bool)
    requires Beginning(e, m, w, whole) && (m.cancelled ==> cancelled)
    ensures Beginning(e, Flagged(m, cancelled, finished), w, whole)
  {
    if Follows(e, m, w, whole) {
      FlagsIrrelevant(e, m, w, whole, cancelled, finished);
    }
    hide Follows;
  }

  lemma StepKeepsBegun(c: Config, e: Env, s: State, event: Event, whole: (Pending, seq<Target>))
    requires e == EnvOf(c, e.site) && Begun(e, s, whole) && TrueStep(e, s, event)
    ensures Begun(e, Step(c, s, event), whole)
  {
    hide Truthful, Beginning, WorkerStep;
    match event
    case Work(i, a) =>
      if i == 0 { WorkerKeepsBeginning(c, e, s.mem, s.workers[0], a, whole); }
    case Produce(_) =>
    case Watch(_) => FlagsKeepBeginning(e, s.mem, s.workers[0], whole, s.mem.cancelled, true);
    case Cancel => FlagsKeepBeginning(e, s.mem, s.workers[0], whole, true, s.mem.finished);
  }

  lemma {:induction false} RunIsBegun(c: Config, e: Env, events: seq<Event>)
    requires e == EnvOf(c, e.site) && Solitary(c) && Start(c).Ok? && TrueRun(c, e, Start(c).value, events)
    ensures Begin(e).Ok? && Begun(e, Run(c, Start(c).value, events), Crawl(e, Begin(e).value, []))
  {
    StartSimulates(c, e);
    if events == [] {
      var s := Start(c).value;
      FollowsMeansBeginning(e, s.mem, s.workers[0], Crawl(e, Begin(e).value, []));
      hide Crawl, Begin, Follows, Beginning, WorkerCount, Decide;
    } else {
      hide Begun, TrueStep, Step, Start, Begin, Crawl, Simulates;
      var init, n := events[..|events| - 1], |events| - 1;
      assert forall i :: 0 <= i < n ==> init[..i] == events[..i];
      RunIsBegun(c, e, init);
      assert TrueStep(e, Run(c, Start(c).value, events[..n]), events[n]);
      StepKeepsBegun(c, e, Run(c, Start(c).value, init), events[n], Crawl(e, Begin(e).value, []));
    }
  }

  /**
   At every moment of every schedule of a crawl by one worker, cancelled and timed-out ones included, the stored pages
   are the first pages of the sequential crawl, in its order and with its statuses.
   */
  lemma PagesAreABeginning(c: Config, site: Site, events: seq<Event>)
    requires Solitary(c) && Start(c).Ok? && TrueRun(c, EnvOf(c, site), Start(c).value, events)
    ensures var e, pages := EnvOf(c, site), Run(c, Start(c).value, events).mem.pages;
      Begin(e).Ok? && pages <= Engine.PagesOf(e, Crawl(e, Begin(e).value, []).1)
  {
    var e, pages := EnvOf(c, site), Run(c, Start(c).value, events).mem.pages;
    RunIsBegun(c, e, events);
    var whole := Crawl(e, Begin(e).value, []).1;
    hide Crawl, Begin, Start, Run, TrueRun, Follows, Halting, StatusesRight, E.TargetsOf;
    PagesFromStatuses(e, pages);
    PagesOfBeginning(e, E.TargetsOf(pages), whole);
  }

  lemma PagesOfBeginning(e: Env, a: seq<Target>, b: seq<Target>)
    requires a <= b
    ensures Engine.PagesOf(e, a) <= Engine.PagesOf(e, b)
  {
    hide Engine.StatusOf;
  }
}
