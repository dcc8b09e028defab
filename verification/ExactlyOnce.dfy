/**
 Every interleaving of the crawl claims each URL class at most once and never loses a claim: the targets ever issued
 are, at every moment, exactly those held by a process, queued, stored as pages, dropped or abandoned.
 */
module ExactlyOnce {
  import opened Prelude
  import opened Dedupe
  import opened Filters
  import opened Protocol

  /** The targets a worker answers for. */
  function Held(w: Worker): multiset<Target> {
    match w
    case Looping(_) => multiset{}
    case Admitting(t, _) => multiset{t}
    case Fetching(t, _) => multiset{t}
    case Discovering(t, _, at) => if at.Enqueue? then multiset{t} + multiset{at.child} else multiset{t}
  }

  function HeldByProducer(p: Producer): multiset<Target> {
    if p.ProducerPush? then multiset{p.child} else multiset{}
  }

  function TargetsOf(pages: seq<Page>): seq<Target> {
    seq(|pages|, i requires 0 <= i < |pages| => pages[i].target)
  }

  /** The targets at rest in shared memory. */
  function AtRest(f: Frontier, pages: seq<Page>): multiset<Target> {
    multiset(f.queue) + multiset(TargetsOf(pages)) + f.dropped + f.abandoned
  }

  function Everywhere(s: State): multiset<Target> {
    AtRest(s.mem.frontier, s.mem.pages) + Gather(s.workers, Held) + HeldByProducer(s.producer)
  }

  /** Nothing is lost and nothing is duplicated. */
  ghost predicate Conserved(s: State) { Everywhere(s) == multiset(s.mem.frontier.issued) }

  /** `t` was discovered on the page of `p`. */
  predicate ChildOf(t: Target, p: Target) { t.parent == Some(p.url) && t.depth == p.depth + 1 }

  ghost predicate Admissible(c: Config, t: Target) {
    t.key == c.guards.keyOf(t.url) && Permitted(c.guards, t.url) && t.depth <= c.options.maxDepth
  }

  ghost predicate DistinctKeys(ts: seq<Target>) {
    forall i, j :: 0 <= i < j < |ts| ==> ts[i].key != ts[j].key
  }

  ghost predicate KeysAre(ts: seq<Target>, keys: set<Url>) {
    forall k :: k in keys <==> exists i :: 0 <= i < |ts| && ts[i].key == k
  }

  ghost predicate Rooted(c: Config, ts: seq<Target>) {
    && ts != [] && ts[0] == SeedTarget(c)
    && forall i :: 0 < i < |ts| ==> HasParentBefore(ts, i)
  }

  ghost predicate HasParentBefore(ts: seq<Target>, i: nat)
    requires i < |ts|
  {
    exists j :: 0 <= j < i && ChildOf(ts[i], ts[j])
  }

  /** The history of claims: the seed first, then children of earlier targets, with pairwise different keys. */
  ghost predicate Lineage(c: Config, f: Frontier) {
    && DistinctKeys(f.issued)
    && KeysAre(f.issued, f.visited)
    && (forall t <- f.issued :: Admissible(c, t))
    && Rooted(c, f.issued)
  }

  // ---- One step, counted for one target ----

  /** How often `x` is at rest, less how often it was issued. */
  function Balance(f: Frontier, pages: seq<Page>, x: Target): int {
    (AtRest(f, pages)[x] as int) - (multiset(f.issued)[x] as int)
  }

  lemma PushBalance(c: Config, f: Frontier, pages: seq<Page>, t: Target, x: Target)
    ensures Balance(Push(c, f, t), pages, x) == Balance(f, pages, x) + multiset{t}[x]
  {
  }

  lemma ClaimBalance(c: Config, f: Frontier, pages: seq<Page>, u: Url, depth: nat, parent: Url, x: Target)
    ensures var (f', t) := Claim(c, f, u, depth, parent);
      Balance(f', pages, x) == Balance(f, pages, x) - (if t.Some? then multiset{t.value}[x] else 0)
  {
  }

  lemma PopBalance(f: Frontier, pages: seq<Page>, x: Target)
    requires f.queue != []
    ensures Balance(f.(queue := f.queue[1..]), pages, x) == Balance(f, pages, x) - multiset{f.queue[0]}[x]
  {
    assert f.queue == [f.queue[0]] + f.queue[1..];
  }

  lemma StoreBalance(f: Frontier, pages: seq<Page>, p: Page, x: Target)
    ensures Balance(f, pages + [p], x) == Balance(f, pages, x) + multiset{p.target}[x]
  {
    assert TargetsOf(pages + [p]) == TargetsOf(pages) + [p.target];
  }

  lemma AbandonBalance(m: Shared, t: Target, x: Target)
    ensures var m' := Abandon(m, t).0;
      Balance(m'.frontier, m'.pages, x) == Balance(m.frontier, m.pages, x) + multiset{t}[x]
  {
  }

  /** What every step of a worker keeps: a claim adds one to both sides, and all else moves targets around. */
  ghost predicate Balanced(m: Shared, w: Worker, m': Shared, w': Worker, x: Target) {
    Balance(m'.frontier, m'.pages, x) + Held(w')[x] == Balance(m.frontier, m.pages, x) + Held(w)[x]
  }

  lemma LoopBalance(c: Config, m: Shared, at: LoopPoint, x: Target)
    ensures var r := LoopStep(c, m, at); Balanced(m, Looping(at), r.0, r.1, x)
  {
    hide Balance;
    if at == Pop && m.frontier.queue != [] {
      PopBalance(m.frontier, m.pages, x);
    }
  }

  lemma AdmissionBalance(c: Config, m: Shared, t: Target, at: Admission, a: Answer, x: Target)
    ensures var r := AdmissionStep(c, m, t, at, a); Balanced(m, Admitting(t, at), r.0, r.1, x)
  {
    AbandonBalance(m, t, x);
    hide Balance;
  }

  lemma AttemptBalance(c: Config, m: Shared, t: Target, at: Attempt, a: Answer, x: Target)
    ensures var r := AttemptStep(c, m, t, at, a); Balanced(m, Fetching(t, at), r.0, r.1, x)
  {
    AbandonBalance(m, t, x);
    hide Balance, MustRetry;
  }

  lemma FollowBalance(c: Config, m: Shared, t: Target, status: nat, todo: seq<Url>, x: Target)
    ensures var r := DiscoveryStep(c, m, t, status, Follow(todo));
      Balanced(m, Discovering(t, status, Follow(todo)), r.0, r.1, x)
  {
    hide Balance, Claim, Held;
    FollowHeld(t, status, todo, x);
    if todo != [] {
      ClaimBalance(c, m.frontier, m.pages, todo[0], t.depth + 1, t.url, x);
      var child := Claim(c, m.frontier, todo[0], t.depth + 1, t.url).1;
      FollowHeld(t, status, todo[1..], x);
      if child.Some? { EnqueueHeld(t, status, child.value, todo[1..], x); }
    }
  }

  lemma FollowHeld(t: Target, status: nat, todo: seq<Url>, x: Target)
    ensures Held(Discovering(t, status, Follow(todo)))[x] == Held(Discovering(t, status, Store))[x] == multiset{t}[x]
  {
  }

  lemma EnqueueHeld(t: Target, status: nat, child: Target, todo: seq<Url>, x: Target)
    ensures Held(Discovering(t, status, Enqueue(child, todo)))[x] == multiset{t}[x] + multiset{child}[x]
  {
  }

  lemma DiscoveryBalance(c: Config, m: Shared, t: Target, status: nat, at: Discovery, x: Target)
    ensures var r := DiscoveryStep(c, m, t, status, at); Balanced(m, Discovering(t, status, at), r.0, r.1, x)
  {
    match at
    case Follow(todo) =>
      hide *;
      FollowBalance(c, m, t, status, todo, x);
    case Enqueue(child, _) =>
      hide Balance, Push;
      PushBalance(c, m.frontier, m.pages, child, x);
    case Store =>
      hide Balance;
      StoreBalance(m.frontier, m.pages, Page(t, status), x);
  }

  lemma WorkerBalance(c: Config, m: Shared, w: Worker, a: Answer, x: Target)
    ensures var r := WorkerStep(c, m, w, a); Balanced(m, w, r.0, r.1, x)
  {
    match w
    case Looping(at) => LoopBalance(c, m, at, x);
    case Admitting(t, at) => AdmissionBalance(c, m, t, at, a, x);
    case Fetching(t, at) => AttemptBalance(c, m, t, at, a, x);
    case Discovering(t, status, at) => DiscoveryBalance(c, m, t, status, at, x);
    hide Balanced, LoopStep, AdmissionStep, AttemptStep, DiscoveryStep;
  }

  lemma ProducerBalance(c: Config, m: Shared, p: Producer, a: Answer, x: Target)
    ensures var (m', p') := ProducerStep(c, m, p, a);
      Balance(m'.frontier, m'.pages, x) + HeldByProducer(p')[x]
      == Balance(m.frontier, m.pages, x) + HeldByProducer(p)[x]
  {
    hide Balance, Claim, Push;
    match p
    case ProducerClaim(u, _) => ClaimBalance(c, m.frontier, m.pages, u, 1, c.seed, x);
    case ProducerPush(child, _) => PushBalance(c, m.frontier, m.pages, child, x);
    case _ =>
  }

  lemma WorkConserves(c: Config, s: State, i: nat, a: Answer, x: Target)
    requires Conserved(s) && i < |s.workers|
    ensures var s' := Step(c, s, Work(i, a)); Everywhere(s')[x] == multiset(s'.mem.frontier.issued)[x]
  {
    WorkerBalance(c, s.mem, s.workers[i], a, x);
    GatherUpdate(s.workers, i, WorkerStep(c, s.mem, s.workers[i], a).1, Held);
    hide WorkerStep, AtRest, Held, HeldByProducer, Gather;
    var (m', w') := WorkerStep(c, s.mem, s.workers[i], a);
    var ws := s.workers[i := w'];
    assert (Gather(ws, Held) + Held(s.workers[i]))[x] == (Gather(s.workers, Held) + Held(w'))[x];
  }

  lemma ProduceConserves(c: Config, s: State, a: Answer, x: Target)
    requires Conserved(s)
    ensures var s' := Step(c, s, Produce(a)); Everywhere(s')[x] == multiset(s'.mem.frontier.issued)[x]
  {
    ProducerBalance(c, s.mem, s.producer, a, x);
    hide ProducerStep, AtRest, HeldByProducer, Gather;
  }

  lemma StepConserves(c: Config, s: State, e: Event)
    requires Conserved(s)
    ensures Conserved(Step(c, s, e))
  {
    hide WorkerStep, ProducerStep, AtRest, HeldByProducer, Gather;
    var s' := Step(c, s, e);
    if e.Work? && e.i < |s.workers| {
      forall x ensures Everywhere(s')[x] == multiset(s'.mem.frontier.issued)[x] {
        hide Step, Everywhere;
        WorkConserves(c, s, e.i, e.a, x);
      }
    } else if e.Produce? {
      forall x ensures Everywhere(s')[x] == multiset(s'.mem.frontier.issued)[x] {
        hide Step, Everywhere;
        ProduceConserves(c, s, e.a, x);
      }
    }
  }

  lemma ClaimIsChild(c: Config, f: Frontier, u: Url, p: Target)
    ensures var (f', child) := Claim(c, f, u, p.depth + 1, p.url);
      if child.None? then f' == f else
        var t := child.value;
        && f'.issued == f.issued + [t] && f'.visited == f.visited + {t.key} && t.key !in f.visited
        && Admissible(c, t) && ChildOf(t, p)
  {
    DecideMeaning(c.options, c.guards, u, p.depth + 1, f.visited);
  }

  lemma ExtendKeys(ts: seq<Target>, keys: set<Url>, t: Target)
    requires DistinctKeys(ts) && KeysAre(ts, keys) && t.key !in keys
    ensures DistinctKeys(ts + [t]) && KeysAre(ts + [t], keys + {t.key})
  {
    var ts' := ts + [t];
    assert ts'[|ts|].key == t.key;
    forall k | k in keys ensures exists i :: 0 <= i < |ts'| && ts'[i].key == k {
      var i :| 0 <= i < |ts| && ts[i].key == k;
      assert ts'[i].key == k;
    }
  }

  lemma ExtendRooted(c: Config, ts: seq<Target>, t: Target, p: Target)
    requires Rooted(c, ts) && p in ts && ChildOf(t, p)
    ensures Rooted(c, ts + [t])
  {
    hide ChildOf, SeedTarget;
    var ts' := ts + [t];
    forall i | 0 < i < |ts'| ensures HasParentBefore(ts', i) {
      if i < |ts| {
        assert HasParentBefore(ts, i);
        var j :| 0 <= j < i && ChildOf(ts[i], ts[j]);
        assert ChildOf(ts'[i], ts'[j]);
      } else {
        var j :| 0 <= j < |ts| && ts[j] == p;
        assert ChildOf(ts'[i], ts'[j]);
      }
    }
  }

  lemma ExtendLineage(c: Config, f: Frontier, f': Frontier, t: Target, p: Target)
    requires Lineage(c, f) && p in f.issued && Admissible(c, t) && ChildOf(t, p) && t.key !in f.visited
    requires f'.issued == f.issued + [t] && f'.visited == f.visited + {t.key}
    ensures Lineage(c, f')
  {
    ExtendKeys(f.issued, f.visited, t);
    ExtendRooted(c, f.issued, t, p);
    hide Admissible, ChildOf, SeedTarget, DistinctKeys, KeysAre, Rooted;
  }

  lemma ClaimKeepsLineage(c: Config, f: Frontier, u: Url, p: Target)
    requires Lineage(c, f) && p in f.issued
    ensures Lineage(c, Claim(c, f, u, p.depth + 1, p.url).0)
  {
    ClaimIsChild(c, f, u, p);
    hide Lineage, Claim;
    var (f', child) := Claim(c, f, u, p.depth + 1, p.url);
    if child.Some? {
      ExtendLineage(c, f, f', child.value, p);
    }
  }

  /** Only claims touch the history. */
  lemma WorkerHistory(c: Config, m: Shared, w: Worker, a: Answer)
    ensures var f, f' := m.frontier, WorkerStep(c, m, w, a).0.frontier;
      || (f'.issued == f.issued && f'.visited == f.visited)
      || (w.Discovering? && w.discovery.Follow? && w.discovery.todo != []
          && f' == Claim(c, f, w.discovery.todo[0], w.t.depth + 1, w.t.url).0)
  {
    hide Claim, MustRetry;
  }

  lemma WorkKeepsLineage(c: Config, s: State, i: nat, a: Answer)
    requires Conserved(s) && Lineage(c, s.mem.frontier) && i < |s.workers|
    ensures Lineage(c, WorkerStep(c, s.mem, s.workers[i], a).0.frontier)
  {
    var f, w := s.mem.frontier, s.workers[i];
    WorkerHistory(c, s.mem, w, a);
    hide WorkerStep, Claim, DistinctKeys, KeysAre, Rooted, Admissible, Conserved;
    if w.Discovering? && w.discovery.Follow? && w.discovery.todo != [] {
      HeldIsIssued(s, i);
      hide Lineage;
      ClaimKeepsLineage(c, f, w.discovery.todo[0], w.t);
    }
  }

  lemma HeldIsIssued(s: State, i: nat)
    requires Conserved(s) && i < |s.workers| && !s.workers[i].Looping?
    ensures s.workers[i].t in s.mem.frontier.issued
  {
    GatherPair(s.workers, i, i, Held);
    assert s.workers[i].t in Held(s.workers[i]);
    hide Held, AtRest, HeldByProducer;
    assert s.workers[i].t in multiset(s.mem.frontier.issued);
  }

  lemma ProduceKeepsLineage(c: Config, m: Shared, p: Producer, a: Answer)
    requires Lineage(c, m.frontier)
    ensures Lineage(c, ProducerStep(c, m, p, a).0.frontier)
  {
    if p.ProducerClaim? {
      ClaimKeepsLineage(c, m.frontier, p.url, m.frontier.issued[0]);
      hide Claim, Lineage;
    }
  }

  lemma StepKeepsLineage(c: Config, s: State, e: Event)
    requires Conserved(s) && Lineage(c, s.mem.frontier)
    ensures Lineage(c, Step(c, s, e).mem.frontier)
  {
    hide WorkerStep, ProducerStep, Lineage, Conserved;
    if e.Work? && e.i < |s.workers| {
      WorkKeepsLineage(c, s, e.i, e.a);
    } else if e.Produce? {
      ProduceKeepsLineage(c, s.mem, s.producer, e.a);
    }
  }

  lemma StartHolds(c: Config)
    requires Start(c).Ok?
    ensures Conserved(Start(c).value) && Lineage(c, Start(c).value.mem.frontier)
  {
    var s := Start(c).value;
    DecideMeaning(c.options, c.guards, c.seed, 0, {});
    NothingHeld(s.workers);
  }

  lemma {:induction false} NothingHeld(ws: seq<Worker>)
    requires forall w <- ws :: Held(w) == multiset{}
    ensures Gather(ws, Held) == multiset{}
  {
    if ws != [] { NothingHeld(ws[..|ws| - 1]); }
  }

  // ---- Every schedule ----

  lemma {:induction false} RunHolds(c: Config, events: seq<Event>)
    requires Start(c).Ok?
    ensures var s := Run(c, Start(c).value, events); Conserved(s) && Lineage(c, s.mem.frontier)
  {
    if events == [] {
      StartHolds(c);
    } else {
      var before := events[..|events| - 1];
      RunHolds(c, before);
      StepConserves(c, Run(c, Start(c).value, before), events[|events| - 1]);
      StepKeepsLineage(c, Run(c, Start(c).value, before), events[|events| - 1]);
    }
  }

  lemma ReachableHolds(c: Config, s: State)
    requires Reachable(c, s)
    ensures Conserved(s) && Lineage(c, s.mem.frontier)
  {
    var events :| s == Run(c, Start(c).value, events);
    RunHolds(c, events);
  }

  lemma {:induction false} DistinctKeysOnce(ts: seq<Target>)
    requires DistinctKeys(ts)
    ensures forall t <- ts :: multiset(ts)[t] == 1
  {
    if ts != [] {
      var front := ts[..|ts| - 1];
      DistinctKeysOnce(front);
      assert ts == front + [ts[|ts| - 1]];
    }
  }

  /** No two places hold the same URL class, and the visited set is exactly the classes held somewhere. */
  lemma ExactlyOnce(c: Config, s: State)
    requires Reachable(c, s)
    ensures forall t <- Everywhere(s) :: Everywhere(s)[t] == 1
    ensures forall t, t' :: t in Everywhere(s) && t' in Everywhere(s) && t.key == t'.key ==> t == t'
    ensures forall k :: k in s.mem.frontier.visited <==> exists t :: t in Everywhere(s) && t.key == k
    ensures forall t <- Everywhere(s) :: Admissible(c, t)
  {
    hide *;
    ReachableIsLineage(c, s);
    var issued, keys := s.mem.frontier.issued, s.mem.frontier.visited;
    IssuedOnce(issued, keys, Everywhere(s));
    forall t | t in Everywhere(s) ensures Admissible(c, t) {
      IssuedIsEverywhere(s, t);
    }
  }

  lemma ReachableIsLineage(c: Config, s: State)
    requires Reachable(c, s)
    ensures var issued := s.mem.frontier.issued;
      && Conserved(s) && Everywhere(s) == multiset(issued)
      && DistinctKeys(issued) && KeysAre(issued, s.mem.frontier.visited) && Rooted(c, issued)
      && (forall t <- issued :: Admissible(c, t))
  {
    ReachableHolds(c, s);
    hide Reachable, Everywhere, DistinctKeys, KeysAre, Rooted, Admissible;
  }

  lemma IssuedOnce(issued: seq<Target>, keys: set<Url>, places: multiset<Target>)
    requires DistinctKeys(issued) && KeysAre(issued, keys) && places == multiset(issued)
    ensures forall t <- places :: places[t] == 1
    ensures forall t, t' :: t in places && t' in places && t.key == t'.key ==> t == t'
    ensures forall k :: k in keys <==> exists t :: t in places && t.key == k
  {
    DistinctKeysOnce(issued);
    forall k | k in keys ensures exists t :: t in places && t.key == k {
      var i :| 0 <= i < |issued| && issued[i].key == k;
      assert issued[i] in places;
    }
  }

  /** A discovery chain: from the seed, each target found on the page of the one before. */
  ghost predicate Chain(c: Config, chain: seq<Target>) {
    && chain != [] && chain[0] == SeedTarget(c)
    && forall i :: 0 < i < |chain| ==> ChildOf(chain[i], chain[i - 1])
  }

  lemma {:induction false} ChainTo(c: Config, ts: seq<Target>, i: nat) returns (chain: seq<Target>)
    requires Rooted(c, ts) && i < |ts|
    ensures Chain(c, chain) && chain[|chain| - 1] == ts[i] && |chain| == ts[i].depth + 1
    ensures forall t <- chain :: t in ts
    decreases i
  {
    if i == 0 {
      chain := [ts[0]];
    } else {
      assert HasParentBefore(ts, i);
      var j :| 0 <= j < i && ChildOf(ts[i], ts[j]);
      chain := ChainTo(c, ts, j);
      chain := chain + [ts[i]];
    }
  }

  /** Every target anywhere has a chain of discoveries of its own depth leading back to the seed. */
  lemma DiscoveryChain(c: Config, s: State, t: Target)
    requires Reachable(c, s) && t in Everywhere(s)
    ensures exists chain :: Chain(c, chain) && chain[|chain| - 1] == t && |chain| == t.depth + 1
                         && forall x <- chain :: x in Everywhere(s)
  {
    hide *;
    var issued := s.mem.frontier.issued;
    ReachableIsLineage(c, s);
    IssuedIsEverywhere(s, t);
    var i :| 0 <= i < |issued| && issued[i] == t;
    var chain := ChainTo(c, issued, i);
    forall x | x in chain ensures x in Everywhere(s) {
      IssuedIsEverywhere(s, x);
    }
  }

  lemma IssuedIsEverywhere(s: State, t: Target)
    requires Conserved(s)
    ensures t in Everywhere(s) <==> t in s.mem.frontier.issued
  {
    hide Everywhere;
  }
}
