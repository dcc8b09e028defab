/**
 A crawl by one worker returns under every fair schedule: if the worker and the monitor are each scheduled again and
 again, nobody cancels and time does not run out, then the worker exits after finitely many steps and the crawl returns.
 */
module FairSchedules {
  import opened Prelude
  import opened Dedupe
  import opened Filters
  import opened Protocol
  import opened SingleWorker
  import opened OneWorker
  import opened OneWorkerReturns

  /** An endless run: the state before each event, and the event. */
  datatype Endless = Endless(state: nat -> State, event: nat -> Event)

  ghost predicate StepsAt(c: Config, e: Env, r: Endless, n: nat) {
    r.state(n + 1) == Step(c, r.state(n), r.event(n)) && Honest(e, r.state(n), r.event(n))
  }

  /** The run starts with the crawl, and the environment answers as the site does. */
  ghost predicate IsRun(c: Config, e: Env, r: Endless)
    requires Start(c).Ok?
  {
    r.state(0) == Start(c).value && forall n: nat :: StepsAt(c, e, r, n)
  }

  predicate IsWork(event: Event) { event.Work? && event.i == 0 }

  ghost predicate WorkAfter(r: Endless, n: nat) { exists m: nat :: m >= n && IsWork(r.event(m)) }

  ghost predicate WatchAfter(r: Endless, n: nat) { exists m: nat :: m >= n && r.event(m).Watch? }

  /** The worker is scheduled again and again. */
  ghost predicate WorksForever(r: Endless) { forall n: nat :: WorkAfter(r, n) }

  /** So is the monitor. */
  ghost predicate WatchesForever(r: Endless) { forall n: nat :: WatchAfter(r, n) }

  /** Every state of the run is one that an honest schedule reaches. */
  ghost predicate Sane(c: Config, e: Env, r: Endless, whole: (Pending, seq<Target>)) {
    && e == EnvOf(c, e.site)
    && forall n: nat :: StepsAt(c, e, r, n) && GoingAt(e, r, n, whole)
  }

  ghost predicate GoingAt(e: Env, r: Endless, n: nat, whole: (Pending, seq<Target>)) { Going(e, r.state(n), whole) }

  lemma {:induction false} StaysGoing(c: Config, e: Env, r: Endless, whole: (Pending, seq<Target>), n: nat)
    requires e == EnvOf(c, e.site) && GoingAt(e, r, 0, whole) && forall n: nat :: StepsAt(c, e, r, n)
    ensures GoingAt(e, r, n, whole)
  {
    hide Going, Honest, Step;
    if n > 0 {
      var m: nat := n - 1;
      StaysGoing(c, e, r, whole, m);
      assert StepsAt(c, e, r, m) && m + 1 == n;
      StepKeepsGoing(c, e, r.state(m), r.event(m), whole);
    }
  }

  lemma RunIsSane(c: Config, e: Env, r: Endless) returns (whole: (Pending, seq<Target>))
    requires e == EnvOf(c, e.site) && Solitary(c) && Start(c).Ok? && IsRun(c, e, r)
    ensures Sane(c, e, r, whole)
  {
    RunIsGoing(c, e, []);
    whole := Crawl(e, Begin(e).value, []);
    assert GoingAt(e, r, 0, whole);
    hide Going, Crawl, Begin, Start, StepsAt, GoingAt;
    forall n: nat ensures GoingAt(e, r, n, whole) {
      StaysGoing(c, e, r, whole, n);
    }
  }

  // ---- The worker ----

  /** Only the worker's own steps change what is left for it to do, and each brings it closer to its exit. */
  lemma WorkerMoves(c: Config, e: Env, r: Endless, whole: (Pending, seq<Target>), n: nat)
    requires Sane(c, e, r, whole)
    ensures var s, s' := r.state(n), r.state(n + 1);
      && |s.workers| == |s'.workers| == 1
      && (IsWork(r.event(n)) && s.workers[0] != Looping(Exited) ==>
            Closer(c, s.mem, s.workers[0], s'.mem, s'.workers[0]))
      && (!IsWork(r.event(n)) ==> s'.workers == s.workers && s'.mem.pages == s.mem.pages)
  {
    assert StepsAt(c, e, r, n) && GoingAt(e, r, n, whole);
    var s, event := r.state(n), r.event(n);
    hide Sane, Closer, Follows, Exact, Truthful, WorkerStep;
    if IsWork(event) && s.workers[0] != Looping(Exited) {
      WorkerProgress(c, e, s.mem, s.workers[0], event.a, whole);
    }
  }

  /** A worker that is scheduled again and again, the next time at `m`, exits. */
  lemma {:induction false} Exits(c: Config, e: Env, r: Endless, whole: (Pending, seq<Target>), n: nat, m: nat)
      returns (k: nat)
    requires Sane(c, e, r, whole) && WorksForever(r)
    requires n <= m && IsWork(r.event(m)) && |r.state(n).workers| == 1
    ensures k >= n && r.state(k).workers == [Looping(Exited)]
    decreases PagesLeft(c, r.state(n).mem), Phase(r.state(n).workers[0]), Rounds(c, r.state(n).workers[0]), m - n
  {
    hide Sane, Phase, Rounds;
    WorkerMoves(c, e, r, whole, n);
    if r.state(n).workers[0] == Looping(Exited) {
      k := n;
    } else if IsWork(r.event(n)) {
      assert WorkAfter(r, n + 1);
      var m' :| m' >= n + 1 && IsWork(r.event(m'));
      k := Exits(c, e, r, whole, n + 1, m');
    } else {
      k := Exits(c, e, r, whole, n + 1, m);
    }
  }

  /** No honest run holds an endless number of the worker's steps: one that keeps scheduling it sees it exit. */
  lemma WorkerStepsEnd(c: Config, site: Site, r: Endless)
    requires Solitary(c) && Start(c).Ok? && IsRun(c, EnvOf(c, site), r) && WorksForever(r)
    ensures exists n: nat :: r.state(n).workers == [Looping(Exited)]
  {
    var e := EnvOf(c, site);
    var whole := RunIsSane(c, e, r);
    hide Start, Sane, IsRun;
    WorkerMoves(c, e, r, whole, 0);
    assert WorkAfter(r, 0);
    var m :| m >= 0 && IsWork(r.event(m));
    var k := Exits(c, e, r, whole, 0, m);
  }

  // ---- The monitor ----

  /** Once the worker has exited, only the monitor moves, and each of its steps brings it closer to the return. */
  lemma MonitorMoves(c: Config, e: Env, r: Endless, whole: (Pending, seq<Target>), n: nat)
    requires Sane(c, e, r, whole) && r.state(n).workers == [Looping(Exited)]
    ensures var s, s' := r.state(n), r.state(n + 1);
      && s'.workers == s.workers
      && (s.monitor == Returned ==> s'.monitor == Returned)
      && (!r.event(n).Watch? ==> s'.monitor == s.monitor)
      && (r.event(n).Watch? && s.monitor != Returned ==> Watching(s'.monitor) < Watching(s.monitor))
  {
    assert StepsAt(c, e, r, n) && GoingAt(e, r, n, whole);
    var s := r.state(n);
    assert forall w <- s.workers :: w == Looping(Exited);
    assert s.workers[0 := Looping(Exited)] == s.workers;
    hide Sane, Follows, Truthful;
  }

  lemma {:induction false} Returns(c: Config, e: Env, r: Endless, whole: (Pending, seq<Target>), n: nat, m: nat)
      returns (k: nat)
    requires Sane(c, e, r, whole) && WatchesForever(r)
    requires n <= m && r.event(m).Watch? && r.state(n).workers == [Looping(Exited)]
    ensures k >= n && HasReturned(r, k)
    decreases Watching(r.state(n).monitor), m - n
  {
    hide Sane, Watching;
    MonitorMoves(c, e, r, whole, n);
    if r.state(n).monitor == Returned {
      k := n;
    } else if r.event(n).Watch? {
      assert WatchAfter(r, n + 1);
      var m' :| m' >= n + 1 && r.event(m').Watch?;
      k := Returns(c, e, r, whole, n + 1, m');
    } else {
      k := Returns(c, e, r, whole, n + 1, m);
    }
  }

  predicate HasReturned(r: Endless, n: nat) {
    r.state(n).monitor == Returned && r.state(n).workers == [Looping(Exited)]
  }

  lemma {:induction false} StaysReturned(c: Config, e: Env, r: Endless, whole: (Pending, seq<Target>), k: nat, n: nat)
    requires Sane(c, e, r, whole) && k <= n && HasReturned(r, k)
    ensures HasReturned(r, n)
    decreases n
  {
    hide Sane, Watching;
    if k < n {
      var m: nat := n - 1;
      StaysReturned(c, e, r, whole, k, m);
      assert m + 1 == n;
      MonitorMoves(c, e, r, whole, m);
    }
  }

  /** Every fair run of a crawl by one worker returns, and stays returned. */
  lemma FairRunReturns(c: Config, site: Site, r: Endless)
    requires Solitary(c) && Start(c).Ok? && IsRun(c, EnvOf(c, site), r) && WorksForever(r) && WatchesForever(r)
    ensures exists n: nat :: HasReturned(r, n) && forall m: nat :: m >= n ==> HasReturned(r, m)
  {
    var e := EnvOf(c, site);
    var whole := RunIsSane(c, e, r);
    WorkerStepsEnd(c, site, r);
    hide Start, Sane, IsRun;
    var n: nat :| r.state(n).workers == [Looping(Exited)];
    assert WatchAfter(r, n);
    var m :| m >= n && r.event(m).Watch?;
    var k := Returns(c, e, r, whole, n, m);
    forall m: nat | m >= k ensures HasReturned(r, m) {
      StaysReturned(c, e, r, whole, k, m);
    }
  }
}
