/**
 No target is scraped more than `maxRetries + 1` times, whatever the interleaving: this rests on every target being
 in one place at a time, so that no two workers can be fetching the same URL class.
 */
module Attempts {
  import opened Prelude
  import opened Dedupe
  import opened Filters
  import opened Protocol
  import opened ExactlyOnce

  function Tried(m: Shared, k: Url): nat { if k in m.tries then m.tries[k] else 0 }

  /** A worker's own attempt count agrees with the record; targets not yet fetched have no record. */
  ghost predicate CountAgrees(c: Config, m: Shared, w: Worker) {
    match w
    case Looping(_) => true
    case Admitting(t, _) => Tried(m, t.key) == 0
    case Fetching(t, at) =>
      (at.Fetch? || at.Retry? || at.Backoff?) ==> Tried(m, t.key) == at.tries <= c.options.maxRetries
    case Discovering(_, _, at) => at.Enqueue? ==> Tried(m, at.child.key) == 0
  }

  ghost predicate QueueUntried(m: Shared) {
    forall t <- m.frontier.queue :: Tried(m, t.key) == 0
  }

  /** Only claimed keys were ever tried, and none too often. */
  ghost predicate TriesBounded(c: Config, m: Shared) {
    forall k <- m.tries :: k in m.frontier.visited && m.tries[k] <= c.options.maxRetries + 1
  }

  ghost predicate Recorded(c: Config, s: State) {
    && QueueUntried(s.mem)
    && TriesBounded(c, s.mem)
    && (forall i :: 0 <= i < |s.workers| ==> CountAgrees(c, s.mem, s.workers[i]))
    && (s.producer.ProducerPush? ==> Tried(s.mem, s.producer.child.key) == 0)
  }

  // ---- Exclusive possession ----

  lemma TwiceIsTooOften(s: State, t: Target, y: Target)
    requires Conserved(s) && DistinctKeys(s.mem.frontier.issued)
    requires multiset{t} + multiset{y} <= Everywhere(s)
    ensures t.key != y.key
  {
    hide Everywhere;
    var issued := s.mem.frontier.issued;
    DistinctKeysOnce(issued);
    assert t in multiset{t} + multiset{y} && y in multiset{t} + multiset{y};
    assert t in multiset(issued) && y in multiset(issued);
    assert t == y ==> (multiset{t} + multiset{y})[t] == 2;
  }

  lemma NotInQueue(s: State, i: nat, y: Target)
    requires Conserved(s) && DistinctKeys(s.mem.frontier.issued)
    requires i < |s.workers| && !s.workers[i].Looping? && y in s.mem.frontier.queue
    ensures s.workers[i].t.key != y.key
  {
    var t := s.workers[i].t;
    GatherPair(s.workers, i, i, Held);
    assert multiset{t} <= Held(s.workers[i]) && multiset{y} <= multiset(s.mem.frontier.queue);
    hide Held, HeldByProducer, Conserved, DistinctKeys, Gather;
    TwiceIsTooOften(s, t, y);
  }

  lemma NotHeldElsewhere(s: State, i: nat, j: nat, y: Target)
    requires Conserved(s) && DistinctKeys(s.mem.frontier.issued)
    requires i < |s.workers| && j < |s.workers| && i != j && !s.workers[i].Looping? && y in Held(s.workers[j])
    ensures s.workers[i].t.key != y.key
  {
    hide *;
    var t := s.workers[i].t;
    HoldsItsTarget(s.workers[i]);
    PairHeld(s, i, j);
    assert multiset{t} + multiset{y} <= Held(s.workers[i]) + Held(s.workers[j]);
    TwiceIsTooOften(s, t, y);
  }

  lemma HoldsItsTarget(w: Worker)
    requires !w.Looping?
    ensures w.t in Held(w)
  {
  }

  lemma PairHeld(s: State, i: nat, j: nat)
    requires i < |s.workers| && j < |s.workers| && i != j
    ensures Held(s.workers[i]) + Held(s.workers[j]) <= Everywhere(s)
  {
    GatherPair(s.workers, i, j, Held);
    hide Held, HeldByProducer, Gather, AtRest;
  }

  lemma NotWithProducer(s: State, i: nat)
    requires Conserved(s) && DistinctKeys(s.mem.frontier.issued)
    requires i < |s.workers| && !s.workers[i].Looping? && s.producer.ProducerPush?
    ensures s.workers[i].t.key != s.producer.child.key
  {
    var t := s.workers[i].t;
    GatherPair(s.workers, i, i, Held);
    assert multiset{t} <= Held(s.workers[i]);
    hide Held, Conserved, DistinctKeys, Gather, AtRest;
    TwiceIsTooOften(s, t, s.producer.child);
  }

  // ---- One step ----

  lemma PushUntried(c: Config, m: Shared, child: Target)
    requires QueueUntried(m) && Tried(m, child.key) == 0
    ensures QueueUntried(m.(frontier := Push(c, m.frontier, child)))
  {
  }

  lemma ClaimUntried(c: Config, m: Shared, u: Url, depth: nat, parent: Url)
    requires QueueUntried(m) && TriesBounded(c, m)
    ensures var (f, child) := Claim(c, m.frontier, u, depth, parent);
      && QueueUntried(m.(frontier := f)) && TriesBounded(c, m.(frontier := f))
      && (child.Some? ==> Tried(m, child.value.key) == 0)
  {
    hide Objection;
  }

  /** A worker that does not scrape leaves the record alone and keeps its own count in agreement. */
  ghost predicate KeepsRecord(c: Config, m: Shared, m': Shared, w': Worker) {
    m'.tries == m.tries && QueueUntried(m') && TriesBounded(c, m') && CountAgrees(c, m', w')
  }

  lemma LoopRecord(c: Config, m: Shared, at: LoopPoint)
    requires QueueUntried(m) && TriesBounded(c, m)
    ensures var r := LoopStep(c, m, at); KeepsRecord(c, m, r.0, r.1)
  {
  }

  lemma AdmissionRecord(c: Config, m: Shared, t: Target, at: Admission, a: Answer)
    requires QueueUntried(m) && TriesBounded(c, m) && CountAgrees(c, m, Admitting(t, at))
    ensures var r := AdmissionStep(c, m, t, at, a); KeepsRecord(c, m, r.0, r.1)
  {
  }

  lemma AttemptRecord(c: Config, m: Shared, t: Target, at: Attempt, a: Answer)
    requires !at.Fetch?
    requires QueueUntried(m) && TriesBounded(c, m) && CountAgrees(c, m, Fetching(t, at))
    ensures var r := AttemptStep(c, m, t, at, a); KeepsRecord(c, m, r.0, r.1)
  {
  }

  lemma DiscoveryRecord(c: Config, m: Shared, t: Target, status: nat, at: Discovery)
    requires QueueUntried(m) && TriesBounded(c, m) && CountAgrees(c, m, Discovering(t, status, at))
    ensures var r := DiscoveryStep(c, m, t, status, at); KeepsRecord(c, m, r.0, r.1)
  {
    if at.Follow? && at.todo != [] {
      ClaimUntried(c, m, at.todo[0], t.depth + 1, t.url);
      hide Claim, Push, QueueUntried, TriesBounded, Tried;
    } else if at.Enqueue? {
      PushUntried(c, m, at.child);
      TriesIgnoreQueue(c, m, Push(c, m.frontier, at.child));
      hide Claim, Push, QueueUntried, TriesBounded, Tried;
    }
  }

  lemma TriesIgnoreQueue(c: Config, m: Shared, f: Frontier)
    requires TriesBounded(c, m) && f.visited == m.frontier.visited
    ensures TriesBounded(c, m.(frontier := f))
  {
  }

  lemma WorkerRecord(c: Config, m: Shared, w: Worker, a: Answer)
    requires !(w.Fetching? && w.attempt.Fetch?)
    requires QueueUntried(m) && TriesBounded(c, m) && CountAgrees(c, m, w)
    ensures var r := WorkerStep(c, m, w, a); KeepsRecord(c, m, r.0, r.1)
  {
    hide KeepsRecord, LoopStep, AdmissionStep, AttemptStep, DiscoveryStep, QueueUntried, TriesBounded, CountAgrees;
    match w
    case Looping(at) => LoopRecord(c, m, at);
    case Admitting(t, at) => AdmissionRecord(c, m, t, at, a);
    case Fetching(t, at) => AttemptRecord(c, m, t, at, a);
    case Discovering(t, status, at) => DiscoveryRecord(c, m, t, status, at);
  }

  /** A record with the same attempts gives the same counts. */
  lemma CountsFollowTries(c: Config, m: Shared, m': Shared, w: Worker)
    requires m'.tries == m.tries && CountAgrees(c, m, w)
    ensures CountAgrees(c, m', w)
  {
  }

  lemma QuietWorkRecorded(c: Config, s: State, i: nat, a: Answer)
    requires Recorded(c, s) && i < |s.workers| && !(s.workers[i].Fetching? && s.workers[i].attempt.Fetch?)
    ensures Recorded(c, Step(c, s, Work(i, a)))
  {
    WorkerRecord(c, s.mem, s.workers[i], a);
    hide WorkerStep, QueueUntried, TriesBounded, CountAgrees;
    var s' := Step(c, s, Work(i, a));
    forall j | 0 <= j < |s'.workers| ensures CountAgrees(c, s'.mem, s'.workers[j]) {
      if j != i { CountsFollowTries(c, s.mem, s'.mem, s.workers[j]); }
    }
  }

  lemma ScrapeCounts(c: Config, m: Shared, t: Target, n: nat, a: Answer)
    requires TriesBounded(c, m) && CountAgrees(c, m, Fetching(t, Fetch(n))) && t.key in m.frontier.visited
    ensures var (m', w') := WorkerStep(c, m, Fetching(t, Fetch(n)), a);
      && m'.tries == m.tries[t.key := n + 1] && m'.frontier == m.frontier
      && TriesBounded(c, m') && CountAgrees(c, m', w')
  {
  }

  lemma OtherKeysUntouched(c: Config, m: Shared, m': Shared, k: Url, n: nat, w: Worker)
    requires m'.tries == m.tries[k := n] && CountAgrees(c, m, w)
    requires forall y <- Held(w) :: y.key != k
    ensures CountAgrees(c, m', w)
  {
    match w
    case Looping(_) =>
    case Admitting(t, _) => assert t in Held(w);
    case Fetching(t, _) => assert t in Held(w);
    case Discovering(_, _, at) => assert at.Enqueue? ==> at.child in Held(w);
  }

  lemma ScrapeRecorded(c: Config, s: State, i: nat, a: Answer)
    requires Recorded(c, s) && Conserved(s) && Lineage(c, s.mem.frontier)
    requires i < |s.workers| && s.workers[i].Fetching? && s.workers[i].attempt.Fetch?
    ensures Recorded(c, Step(c, s, Work(i, a)))
  {
    hide Conserved, DistinctKeys, TriesBounded, CountAgrees, Rooted, Admissible, Held, ExactlyOnce.KeysAre;
    var s' := Step(c, s, Work(i, a));
    var t, n := s.workers[i].t, s.workers[i].attempt.tries;
    HeldKeyVisited(c, s, i);
    ScrapeCounts(c, s.mem, t, n, a);
    hide WorkerStep, Lineage;
    forall j | 0 <= j < |s'.workers| ensures CountAgrees(c, s'.mem, s'.workers[j]) {
      if j != i {
        forall y <- Held(s.workers[j]) ensures y.key != t.key { NotHeldElsewhere(s, i, j, y); }
        OtherKeysUntouched(c, s.mem, s'.mem, t.key, n + 1, s.workers[j]);
      }
    }
    forall y <- s'.mem.frontier.queue ensures Tried(s'.mem, y.key) == 0 {
      NotInQueue(s, i, y);
    }
    if s.producer.ProducerPush? { NotWithProducer(s, i); }
  }

  lemma HeldKeyVisited(c: Config, s: State, i: nat)
    requires Conserved(s) && Lineage(c, s.mem.frontier) && i < |s.workers| && !s.workers[i].Looping?
    ensures s.workers[i].t.key in s.mem.frontier.visited
  {
    HeldIsIssued(s, i);
    hide Conserved, DistinctKeys, Rooted, Admissible;
    var issued := s.mem.frontier.issued;
    var j :| 0 <= j < |issued| && issued[j] == s.workers[i].t;
    assert issued[j].key in s.mem.frontier.visited;
  }

  lemma ProducerRecord(c: Config, m: Shared, p: Producer, a: Answer)
    requires QueueUntried(m) && TriesBounded(c, m) && (p.ProducerPush? ==> Tried(m, p.child.key) == 0)
    ensures var (m', p') := ProducerStep(c, m, p, a);
      && m'.tries == m.tries && QueueUntried(m') && TriesBounded(c, m')
      && (p'.ProducerPush? ==> Tried(m', p'.child.key) == 0)
  {
    if p.ProducerClaim? {
      ClaimUntried(c, m, p.url, 1, c.seed);
      hide Claim, QueueUntried, TriesBounded;
    } else if p.ProducerPush? {
      PushUntried(c, m, p.child);
      TriesIgnoreQueue(c, m, Push(c, m.frontier, p.child));
      hide Push, QueueUntried, TriesBounded;
    }
  }

  lemma ProduceRecorded(c: Config, s: State, a: Answer)
    requires Recorded(c, s)
    ensures Recorded(c, Step(c, s, Produce(a)))
  {
    ProducerRecord(c, s.mem, s.producer, a);
    hide ProducerStep, QueueUntried, TriesBounded, CountAgrees, Tried;
    var s' := Step(c, s, Produce(a));
    forall j | 0 <= j < |s'.workers| ensures CountAgrees(c, s'.mem, s'.workers[j]) {
      CountsFollowTries(c, s.mem, s'.mem, s.workers[j]);
    }
  }

  lemma FlagsRecorded(c: Config, s: State, e: Event)
    requires Recorded(c, s) && (e.Watch? || e.Cancel?)
    ensures Recorded(c, Step(c, s, e))
  {
    var s' := Step(c, s, e);
    assert s'.mem.frontier == s.mem.frontier && s'.mem.tries == s.mem.tries && s'.workers == s.workers;
    forall j | 0 <= j < |s'.workers| ensures CountAgrees(c, s'.mem, s'.workers[j]) {
      CountsFollowTries(c, s.mem, s'.mem, s.workers[j]);
    }
  }

  lemma StepRecorded(c: Config, s: State, e: Event)
    requires Recorded(c, s) && Conserved(s) && Lineage(c, s.mem.frontier)
    ensures Recorded(c, Step(c, s, e))
  {
    hide Recorded, Conserved, Lineage, WorkerStep, ProducerStep;
    match e {
      case Work(i, a) =>
        if i < |s.workers| {
          if s.workers[i].Fetching? && s.workers[i].attempt.Fetch? {
            ScrapeRecorded(c, s, i, a);
          } else {
            QuietWorkRecorded(c, s, i, a);
          }
        }
      case Produce(a) => ProduceRecorded(c, s, a);
      case _ => FlagsRecorded(c, s, e);
    }
  }

  // ---- Every schedule ----

  lemma {:induction false} RunRecorded(c: Config, events: seq<Event>)
    requires Start(c).Ok?
    ensures Recorded(c, Run(c, Start(c).value, events))
  {
    if events != [] {
      var before := events[..|events| - 1];
      RunRecorded(c, before);
      RunHolds(c, before);
      StepRecorded(c, Run(c, Start(c).value, before), events[|events| - 1]);
      hide Step, Start, Recorded;
    }
  }

  /** In every interleaving each URL class is scraped at most `maxRetries + 1` times, and only after it was claimed. */
  lemma AttemptsBounded(c: Config, s: State, k: Url)
    requires Reachable(c, s)
    ensures Tried(s.mem, k) <= c.options.maxRetries + 1
    ensures Tried(s.mem, k) > 0 ==> k in s.mem.frontier.visited
  {
    hide Run, Start;
    var events :| s == Run(c, Start(c).value, events);
    RunRecorded(c, events);
  }
}
