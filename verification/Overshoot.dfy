/**
 The overshoot bound cannot be improved: whenever the seed's page has enough links, some schedule counts exactly
 limit + W - 1 pages, because all W workers pass the limit check before any of them counts its page.
 */
module Overshoot {
  import opened Prelude
  import opened Dedupe
  import opened Filters
  import opened Protocol
  import opened Schedules

  // ---- The seed's page ----

  /** The links would all be let in, one after the other, and there is room for them. */
  ghost predicate AllCount(c: Config, f: Frontier, t: Target, links: seq<Url>) {
    && |f.queue| + |links| <= c.options.maxFrontierSize
    && (forall i :: 0 <= i < |links| ==> Objection(c.options, c.guards, links[i], t.depth + 1).None?)
    && (forall i :: 0 <= i < |links| ==> c.guards.keyOf(links[i]) !in f.visited)
    && (forall i, j :: 0 <= i < j < |links| ==> c.guards.keyOf(links[i]) != c.guards.keyOf(links[j]))
  }

  lemma FollowsOne(c: Config, m: Shared, t: Target, links: seq<Url>, a: Answer, n: nat) returns (m': Shared)
    requires Running(m) && links != [] && AllCount(c, m.frontier, t, links) && n >= 2
    ensures Steps(c, m, Discovering(t, 200, Follow(links)), a, n)
         == Steps(c, m', Discovering(t, 200, Follow(links[1..])), a, n - 2)
    ensures Running(m') && m'.books == m.books && |m'.frontier.queue| == |m.frontier.queue| + 1
    ensures AllCount(c, m'.frontier, t, links[1..])
  {
    var u, f := links[0], m.frontier;
    var child := ChildTarget(c, t, u);
    var m1 := m.(frontier := f.(visited := f.visited + {child.key}, issued := f.issued + [child]));
    m' := m1.(frontier := m1.frontier.(queue := m1.frontier.queue + [child]));
    hide Steps, Objection;
    StepTo(c, m, Discovering(t, 200, Follow(links)), a, n, m1, Discovering(t, 200, Enqueue(child, links[1..])));
    var rest := links[1..];
    StepTo(c, m1, Discovering(t, 200, Enqueue(child, rest)), a, n - 1, m', Discovering(t, 200, Follow(rest)));
  }

  lemma {:induction false} FollowsAll(c: Config, m: Shared, t: Target, links: seq<Url>, a: Answer) returns (m': Shared)
    requires Running(m) && AllCount(c, m.frontier, t, links)
    ensures Steps(c, m, Discovering(t, 200, Follow(links)), a, 2 * |links| + 3) == (m', Looping(Head))
    ensures Running(m') && m'.books == m.books && |m'.frontier.queue| == |m.frontier.queue| + |links|
    decreases |links|
  {
    if links == [] {
      m' := StoresAndLeaves(c, m, t, a);
    } else {
      hide Steps, AllCount;
      var m1 := FollowsOne(c, m, t, links, a, 2 * |links| + 3);
      m' := FollowsAll(c, m1, t, links[1..], a);
    }
  }

  // ---- The schedule ----

  /** The first `n` workers are at one point of the loop and the others at another. */
  ghost predicate Split(s: State, n: nat, a: LoopPoint, b: LoopPoint) {
    forall i :: 0 <= i < |s.workers| ==> s.workers[i] == Looping(if i < n then a else b)
  }

  /** A running crawl with this many pages counted and targets queued. */
  ghost predicate At(c: Config, s: State, crawled: nat, queued: nat) {
    && |s.workers| == WorkerCount(c)
    && Running(s.mem)
    && s.mem.books.crawled == crawled
    && |s.mem.frontier.queue| == queued
  }

  /** The first worker processes the seed and queues its links. */
  lemma SeedPage(c: Config, links: seq<Url>) returns (events: seq<Event>, s: State)
    requires Start(c).Ok? && c.options.maxDepth > 0 && c.options.limit > 0
    requires AllCount(c, Start(c).value.mem.frontier.(queue := []), SeedTarget(c), links)
    ensures s == Run(c, Start(c).value, events)
    ensures At(c, s, 1, |links|) && Split(s, 0, Head, Head)
  {
    var s0, t, a := Start(c).value, SeedTarget(c), PageAnswer(links);
    assert s0.mem.frontier.queue == [t] + [] && s0.workers[0] == Looping(Head);
    hide Steps, Run, Works, Decide, AllCount, Objection;
    var counting: nat, following: nat := 8 + Gate(c), 2 * |links| + 3;
    PassesLimit(c, s0.mem, a);
    var m1 := PopsAndCounts(c, s0.mem, t, [], links);
    var m2 := FollowsAll(c, m1, t, links, a);
    hide Gate;
    StepsConcat(c, s0.mem, Looping(Pop), a, counting, following);
    StepsConcat(c, s0.mem, Looping(Head), a, 3, counting + following);
    var n: nat := 3 + (counting + following);
    events := Works(0, a, n);
    s := WorkerMoves(c, s0, 0, a, n, m2, Head);
    assert s.workers == s0.workers;
  }

  /** The first worker alone processes `k` pages without links. */
  lemma {:induction false} PlainPages(c: Config, s: State, k: nat, crawled: nat, queued: nat)
      returns (events: seq<Event>, s': State)
    requires At(c, s, crawled, queued) && Split(s, 0, Head, Head)
    requires crawled + k <= c.options.limit && k <= queued
    ensures s' == Run(c, s, events)
    ensures At(c, s', crawled + k, queued - k) && Split(s', 0, Head, Head)
    decreases k
  {
    hide Steps, Run, Works;
    if k == 0 {
      events, s' := [], s;
      RunNothing(c, s);
    } else {
      var a, q := PageAnswer([]), s.mem.frontier.queue;
      assert q == [q[0]] + q[1..];
      var page: nat := 11 + Gate(c);
      PassesLimit(c, s.mem, a);
      var m := PlainPage(c, s.mem, q[0], q[1..]);
      StepsConcat(c, s.mem, Looping(Head), a, 3, page);
      var s1 := WorkerMoves(c, s, 0, a, 3 + page, m, Head);
      var more, last := PlainPages(c, s1, k - 1, crawled + 1, queued - 1);
      RunConcat(c, s, Works(0, a, 3 + page), more);
      events, s' := Works(0, a, 3 + page) + more, last;
    }
  }

  /** The first `n` workers pass the limit check. */
  lemma {:induction false} ManyPass(c: Config, s: State, n: nat, crawled: nat, queued: nat)
      returns (events: seq<Event>, s': State)
    requires At(c, s, crawled, queued) && Split(s, 0, Head, Head) && crawled < c.options.limit && n <= |s.workers|
    ensures s' == Run(c, s, events)
    ensures At(c, s', crawled, queued) && Split(s', n, Pop, Head)
  {
    hide Steps, Run, Works;
    if n == 0 {
      events, s' := [], s;
      RunNothing(c, s);
    } else {
      var first, s1 := ManyPass(c, s, n - 1, crawled, queued);
      var a := PageAnswer([]);
      PassesLimit(c, s1.mem, a);
      s' := WorkerMoves(c, s1, n - 1, a, 3, s1.mem, Pop);
      RunConcat(c, s, first, Works(n - 1, a, 3));
      events := first + Works(n - 1, a, 3);
    }
  }

  /** The first `n` workers, all past the check, each process one page. */
  lemma {:induction false} ManyProcess(c: Config, s: State, n: nat, crawled: nat, queued: nat)
      returns (events: seq<Event>, s': State)
    requires At(c, s, crawled, queued) && Split(s, 0, Head, Pop) && n <= |s.workers| && n <= queued
    ensures s' == Run(c, s, events)
    ensures At(c, s', crawled + n, queued - n) && Split(s', n, Head, Pop)
  {
    hide Steps, Run, Works;
    if n == 0 {
      events, s' := [], s;
      RunNothing(c, s);
    } else {
      var first, s1 := ManyProcess(c, s, n - 1, crawled, queued);
      var page: nat := 11 + Gate(c);
      var a, q := PageAnswer([]), s1.mem.frontier.queue;
      assert q == [q[0]] + q[1..];
      var m := PlainPage(c, s1.mem, q[0], q[1..]);
      s' := WorkerMoves(c, s1, n - 1, a, page, m, Head);
      RunConcat(c, s, first, Works(n - 1, a, page));
      events := first + Works(n - 1, a, page);
    }
  }

  lemma ManyOvershoot(c: Config, links: seq<Url>)
    requires Start(c).Ok? && c.options.maxDepth > 0 && c.options.limit >= 2
    requires AllCount(c, Start(c).value.mem.frontier.(queue := []), SeedTarget(c), links)
    requires |links| >= c.options.limit - 2 + WorkerCount(c)
    ensures exists s :: Reachable(c, s) && s.mem.books.crawled == c.options.limit + WorkerCount(c) - 1
  {
    var w, l := WorkerCount(c), c.options.limit;
    var e1, s1 := SeedPage(c, links);
    hide Start, WorkerCount, Run, AllCount;
    var e2, s2 := PlainPages(c, s1, l - 2, 1, |links|);
    var e3, s3 := ManyPass(c, s2, w, l - 1, |links| - (l - 2));
    assert Split(s3, 0, Head, Pop);
    var e4, s4 := ManyProcess(c, s3, w, l - 1, |links| - (l - 2));
    RunConcat(c, Start(c).value, e1, e2);
    RunConcat(c, Start(c).value, e1 + e2, e3);
    RunConcat(c, Start(c).value, e1 + e2 + e3, e4);
    assert s4 == Run(c, Start(c).value, e1 + e2 + e3 + e4);
    assert Reachable(c, s4);
  }

  /** A crawl of one page counts it, and a crawl of none counts none. */
  lemma OneOrNone(c: Config)
    requires Start(c).Ok? && c.options.limit <= 1
    ensures exists s :: Reachable(c, s) && s.mem.books.crawled == c.options.limit
  {
    var s0, t := Start(c).value, SeedTarget(c);
    RunNothing(c, s0);
    assert Reachable(c, s0);
    if c.options.limit == 1 {
      assert s0.mem.frontier.queue == [t] + [] && s0.workers[0] == Looping(Head);
      var a, page: nat := PageAnswer([]), 11 + Gate(c);
      hide Steps, Run, Works, Decide, WorkerCount, Gate;
      PassesLimit(c, s0.mem, a);
      var m := PlainPage(c, s0.mem, t, []);
      StepsConcat(c, s0.mem, Looping(Head), a, 3, page);
      var s := WorkerMoves(c, s0, 0, a, 3 + page, m, Head);
      assert Reachable(c, s);
    }
  }

  /**
   For every limit and every number of workers, with robots.txt or without, a seed page with enough links lets some
   schedule reach the bound exactly.
   */
  lemma OvershootIsReached(c: Config, links: seq<Url>)
    requires Start(c).Ok? && |links| >= c.options.limit - 2 + WorkerCount(c)
    requires AllCount(c, Start(c).value.mem.frontier.(queue := []), SeedTarget(c), links)
    ensures exists s :: Reachable(c, s) && s.mem.books.crawled == c.options.limit + WorkerCount(c) - 1
  {
    if c.options.limit >= 2 {
      assert c.options.maxDepth > 0 by { assert Objection(c.options, c.guards, links[0], 1).None?; }
      hide Start, AllCount, Reachable;
      ManyOvershoot(c, links);
    } else {
      assert WorkerCount(c) == 1;
      hide Start, AllCount, Reachable;
      OneOrNone(c);
    }
  }
}
