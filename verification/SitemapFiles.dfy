/**
 Which sitemap files are fetched: a queue of files with their depth, read in order. Every file fetched is within reach
 of the initial ones through index files; and when the queue never fills, every file within reach is fetched.
 */
module SitemapFiles {
  import opened Prelude
  import opened Dedupe
  import opened Discovery

  // ---- The search, as a function ----

  /** A file to fetch, and its distance from the initial ones. */
  type Entry = (Url, nat)

  /** The files fetched, the board, and whether twice the limit was listed on the way. */
  datatype SitemapRun = SitemapRun(files: seq<Url>, board: Board, full: bool)

  /** The queue after an index file has been read: children that are new are appended while there is room. */
  function Queued(c: Context, children: seq<Url>, files: seq<Url>, queue: seq<Entry>, depth: nat): seq<Entry> {
    if children == [] then queue
    else
      var q, child := Queued(c, children[..|children| - 1], files, queue, depth), children[|children| - 1];
      if child !in files && |q| < c.limits.maxSitemapFiles then q + [(child, depth)] else q
  }

  /** The search ends with the queue, at the number of files allowed, at a file too deep, or with a full list. */
  function Sitemaps(c: Context, queue: seq<Entry>, files: seq<Url>, b: Board): SitemapRun
    decreases Max(c.limits.maxSitemapFiles - |files|, 0), |queue|
  {
    if queue == [] || |files| >= c.limits.maxSitemapFiles || queue[0].1 > c.limits.maxSitemapDepth then
      SitemapRun(files, b, false)
    else
      var u, d, rest := queue[0].0, queue[0].1, queue[1..];
      if u in files then Sitemaps(c, rest, files, b)
      else
        var files' := files + [u];
        match c.site.sitemap(u)
        case Some(Locations(locs)) =>
          var (b', full) := OfferLocations(c, b, locs);
          if full then SitemapRun(files', b', true) else Sitemaps(c, rest, files', b')
        case Some(Index(children)) => Sitemaps(c, Queued(c, children, files', rest, d + 1), files', b)
        case None => Sitemaps(c, rest, files', b)
  }

  function Initially(initial: seq<Url>): seq<Entry> {
    seq(|initial|, i requires 0 <= i < |initial| => (initial[i], 0))
  }

  // ---- Reach ----

  function ChildrenOf(c: Context, u: Url): seq<Url> {
    var file := c.site.sitemap(u);
    if file.Some? && file.value.Index? then file.value.children else []
  }

  ghost predicate IndexPath(c: Context, initial: seq<Url>, path: seq<Url>) {
    && path != [] && path[0] in initial
    && forall i :: 0 < i < |path| ==> path[i] in ChildrenOf(c, path[i - 1])
  }

  ghost predicate ReachedIn(c: Context, initial: seq<Url>, u: Url, d: nat) {
    exists path :: IndexPath(c, initial, path) && path[|path| - 1] == u && |path| - 1 == d
  }

  /** Some chain of index files, not too long, leads from an initial file to this one. */
  ghost predicate WithinReach(c: Context, initial: seq<Url>, u: Url) {
    exists d: nat :: d <= c.limits.maxSitemapDepth && ReachedIn(c, initial, u, d)
  }

  lemma ChildReached(c: Context, initial: seq<Url>, u: Url, d: nat, child: Url)
    requires ReachedIn(c, initial, u, d) && child in ChildrenOf(c, u)
    ensures ReachedIn(c, initial, child, d + 1)
  {
    var path :| IndexPath(c, initial, path) && path[|path| - 1] == u && |path| - 1 == d;
    hide ChildrenOf;
    var longer := path + [child];
    assert IndexPath(c, initial, longer);
  }

  // ---- One step of the search ----

  /** What the search does with the head of the queue: skips a file it knows, or fetches it and queues its children. */
  function NextQueue(c: Context, queue: seq<Entry>, files: seq<Url>): seq<Entry>
    requires queue != []
  {
    var u, d, rest := queue[0].0, queue[0].1, queue[1..];
    if u in files then rest else Queued(c, ChildrenOf(c, u), files + [u], rest, d + 1)
  }

  function NextFiles(queue: seq<Entry>, files: seq<Url>): seq<Url>
    requires queue != []
  {
    if queue[0].0 in files then files else files + [queue[0].0]
  }

  predicate Stops(c: Context, queue: seq<Entry>, files: seq<Url>) {
    queue == [] || |files| >= c.limits.maxSitemapFiles || queue[0].1 > c.limits.maxSitemapDepth
  }

  /** The search stops, goes on with the next queue, or ends because the list is full. */
  lemma SitemapsStep(c: Context, queue: seq<Entry>, files: seq<Url>, b: Board) returns (b': Board)
    ensures Stops(c, queue, files) ==> Sitemaps(c, queue, files, b) == SitemapRun(files, b, false)
    ensures !Stops(c, queue, files) ==>
      var r, queue', files' := Sitemaps(c, queue, files, b), NextQueue(c, queue, files), NextFiles(queue, files);
      r == Sitemaps(c, queue', files', b') || (r.full && r.files == files')
  {
    hide OfferLocations, Queued;
    b' := b;
    if !Stops(c, queue, files) && queue[0].0 !in files {
      var file := c.site.sitemap(queue[0].0);
      if file.Some? && file.value.Locations? {
        b' := OfferLocations(c, b, file.value.locs).0;
        NoChildren(c, files + [queue[0].0], queue[1..], queue[0].1 + 1);
      } else if file.None? {
        NoChildren(c, files + [queue[0].0], queue[1..], queue[0].1 + 1);
      }
    }
  }

  lemma NoChildren(c: Context, files: seq<Url>, queue: seq<Entry>, depth: nat)
    ensures Queued(c, [], files, queue, depth) == queue
  {
  }

  /** The children queued are at the given depth and come after the old queue. */
  lemma {:induction false} QueuedMeaning(c: Context, children: seq<Url>, files: seq<Url>, queue: seq<Entry>, depth: nat)
    ensures var q := Queued(c, children, files, queue, depth);
      && queue <= q && |q| <= |queue| + |children|
      && (forall e <- q :: e in queue || (e.0 in children && e.1 == depth))
      && (forall i :: |queue| <= i < |q| ==> q[i].1 == depth)
      && (|queue| + |children| <= c.limits.maxSitemapFiles ==>
            forall u <- children :: u in files || (u, depth) in q)
  {
    if children != [] {
      var init, last := children[..|children| - 1], children[|children| - 1];
      QueuedMeaning(c, init, files, queue, depth);
      assert children == init + [last];
      var q, q0 := Queued(c, children, files, queue, depth), Queued(c, init, files, queue, depth);
      hide Queued;
      assert q == q0 || q == q0 + [(last, depth)];
      assert forall e <- q0 :: e in q;
    }
  }

  // ---- Every file fetched is within reach ----

  ghost predicate AllReached(c: Context, initial: seq<Url>, queue: seq<Entry>, files: seq<Url>) {
    && (forall e <- queue :: ReachedIn(c, initial, e.0, e.1))
    && (forall f <- files :: WithinReach(c, initial, f))
  }

  lemma StepReaches(c: Context, initial: seq<Url>, queue: seq<Entry>, files: seq<Url>)
    requires AllReached(c, initial, queue, files) && !Stops(c, queue, files)
    ensures AllReached(c, initial, NextQueue(c, queue, files), NextFiles(queue, files))
  {
    var u, d, rest := queue[0].0, queue[0].1, queue[1..];
    assert queue[0] in queue && forall e <- rest :: e in queue;
    hide ReachedIn, ChildrenOf, Queued;
    assert WithinReach(c, initial, u);
    hide WithinReach;
    if u !in files {
      QueuedMeaning(c, ChildrenOf(c, u), files + [u], rest, d + 1);
      forall e | e in NextQueue(c, queue, files) ensures ReachedIn(c, initial, e.0, e.1) {
        if e !in rest { ChildReached(c, initial, u, d, e.0); }
      }
    }
  }

  lemma {:induction false} SearchReaches(c: Context, initial: seq<Url>, queue: seq<Entry>, files: seq<Url>, b: Board)
    requires AllReached(c, initial, queue, files)
    ensures forall f <- Sitemaps(c, queue, files, b).files :: WithinReach(c, initial, f)
    decreases Max(c.limits.maxSitemapFiles - |files|, 0), |queue|
  {
    var b' := SitemapsStep(c, queue, files, b);
    hide WithinReach, ReachedIn, Sitemaps, NextQueue, NextFiles;
    if !Stops(c, queue, files) {
      StepReaches(c, initial, queue, files);
      StepProgress(c, queue, files);
      SearchReaches(c, initial, NextQueue(c, queue, files), NextFiles(queue, files), b');
    }
  }

  lemma StepProgress(c: Context, queue: seq<Entry>, files: seq<Url>)
    requires !Stops(c, queue, files)
    ensures var queue', files' := NextQueue(c, queue, files), NextFiles(queue, files);
      |files'| == |files| + 1 || (files' == files && |queue'| < |queue|)
  {
    hide Queued;
  }

  // ---- When the queue never fills ----

  /** The entries of the queue that files not yet fetched may still add. */
  function Outstanding(c: Context, universe: seq<Url>, files: seq<Url>): nat {
    if universe == [] then 0
    else
      var last := universe[|universe| - 1];
      Outstanding(c, universe[..|universe| - 1], files) + if last in files then 0 else |ChildrenOf(c, last)|
  }

  ghost predicate HoldsChildren(c: Context, universe: seq<Url>) {
    forall u <- universe, v <- ChildrenOf(c, u) :: v in universe
  }

  /** The universe holds the initial files and all that its index files name, and all of it fits in the queue. */
  ghost predicate SmallSite(c: Context, initial: seq<Url>, universe: seq<Url>) {
    && Distinct(universe)
    && (forall u <- initial :: u in universe)
    && HoldsChildren(c, universe)
    && |initial| + Outstanding(c, universe, []) <= c.limits.maxSitemapFiles
  }

  ghost predicate Roomy(c: Context, universe: seq<Url>, queue: seq<Entry>, files: seq<Url>) {
    && Distinct(universe)
    && (forall e <- queue :: e.0 in universe)
    && HoldsChildren(c, universe)
    && |files| + |queue| + Outstanding(c, universe, files) <= c.limits.maxSitemapFiles
  }

  lemma {:induction false} OutstandingOthers(c: Context, universe: seq<Url>, files: seq<Url>, u: Url)
    requires u !in universe
    ensures Outstanding(c, universe, files + [u]) == Outstanding(c, universe, files)
  {
    hide ChildrenOf;
    if universe != [] {
      OutstandingOthers(c, universe[..|universe| - 1], files, u);
      assert universe[|universe| - 1] in universe;
    }
  }

  lemma {:induction false} OutstandingFalls(c: Context, universe: seq<Url>, files: seq<Url>, u: Url)
    requires Distinct(universe) && u in universe && u !in files
    ensures Outstanding(c, universe, files + [u]) + |ChildrenOf(c, u)| == Outstanding(c, universe, files)
  {
    hide ChildrenOf;
    var init, last := universe[..|universe| - 1], universe[|universe| - 1];
    assert universe == init + [last];
    if u == last {
      assert u !in init;
      OutstandingOthers(c, init, files, u);
    } else {
      OutstandingFalls(c, init, files, u);
    }
  }

  lemma StepStaysRoomy(c: Context, universe: seq<Url>, queue: seq<Entry>, files: seq<Url>)
    requires Roomy(c, universe, queue, files) && queue != []
    ensures Roomy(c, universe, NextQueue(c, queue, files), NextFiles(queue, files))
    ensures queue[0].0 !in files ==> |queue| - 1 + |ChildrenOf(c, queue[0].0)| <= c.limits.maxSitemapFiles
  {
    var u, d, rest := queue[0].0, queue[0].1, queue[1..];
    assert queue[0] in queue && forall e <- rest :: e in queue;
    hide ChildrenOf, Queued, Outstanding, Distinct, HoldsChildren;
    if u !in files {
      OutstandingFalls(c, universe, files, u);
      QueuedMeaning(c, ChildrenOf(c, u), files + [u], rest, d + 1);
      assert forall v <- ChildrenOf(c, u) :: v in universe by { ChildrenHeld(c, universe, u); }
    }
  }

  lemma ChildrenHeld(c: Context, universe: seq<Url>, u: Url)
    requires HoldsChildren(c, universe) && u in universe
    ensures forall v <- ChildrenOf(c, u) :: v in universe
  {
    hide ChildrenOf;
  }

  // ---- Every file within reach is fetched ----

  /** The queue is in order of depth, and one level deep at most. */
  ghost predicate Levelled(queue: seq<Entry>) {
    && (forall i, j :: 0 <= i < j < |queue| ==> queue[i].1 <= queue[j].1)
    && (forall e <- queue :: e.1 <= queue[0].1 + 1)
  }

  /** `at` says at which depth each file was fetched. The file is fetched, or queued, no deeper than that. */
  ghost predicate Settled(queue: seq<Entry>, at: map<Url, nat>, u: Url, d: nat) {
    (u in at && at[u] <= d) || exists e <- queue :: e.0 == u && e.1 <= d
  }

  ghost predicate Complete(c: Context, initial: seq<Url>, queue: seq<Entry>, files: seq<Url>, at: map<Url, nat>) {
    && (forall f :: f in at <==> f in files)
    && (forall f <- at, e <- queue :: at[f] <= e.1)
    && (forall u <- initial :: Settled(queue, at, u, 0))
    && (forall f <- at :: at[f] < c.limits.maxSitemapDepth ==> ChildrenSettled(c, queue, at, f, at[f]))
  }

  ghost predicate ChildrenSettled(c: Context, queue: seq<Entry>, at: map<Url, nat>, f: Url, d: nat) {
    forall u <- ChildrenOf(c, f) :: Settled(queue, at, u, d + 1)
  }

  function NextAt(queue: seq<Entry>, files: seq<Url>, at: map<Url, nat>): map<Url, nat>
    requires queue != []
  {
    if queue[0].0 in files then at else at[queue[0].0 := queue[0].1]
  }

  /** The head of the queue is settled by being fetched. */
  lemma StaysSettled(c: Context, queue: seq<Entry>, files: seq<Url>, at: map<Url, nat>, u: Url, d: nat)
    requires queue != [] && Settled(queue, at, u, d)
    requires (forall f :: f in at <==> f in files) && (forall f <- at, e <- queue :: at[f] <= e.1)
    ensures Settled(NextQueue(c, queue, files), NextAt(queue, files, at), u, d)
  {
    var v, k, rest := queue[0].0, queue[0].1, queue[1..];
    QueuedMeaning(c, ChildrenOf(c, v), files + [v], rest, k + 1);
    hide ChildrenOf, Queued;
    assert queue[0] in queue;
    if !(u in at && at[u] <= d) {
      var e :| e in queue && e.0 == u && e.1 <= d;
      if e != queue[0] {
        assert e in rest;
        assert e in NextQueue(c, queue, files);
      }
    }
  }

  /** The children of the file just fetched are known already or queued. */
  lemma ChildrenQueued(c: Context, queue: seq<Entry>, files: seq<Url>, at: map<Url, nat>)
    requires queue != [] && queue[0].0 !in files
    requires (forall f :: f in at <==> f in files) && (forall f <- at, e <- queue :: at[f] <= e.1)
    requires |queue| - 1 + |ChildrenOf(c, queue[0].0)| <= c.limits.maxSitemapFiles
    ensures ChildrenSettled(c, NextQueue(c, queue, files), NextAt(queue, files, at), queue[0].0, queue[0].1)
  {
    var v, k, rest := queue[0].0, queue[0].1, queue[1..];
    QueuedMeaning(c, ChildrenOf(c, v), files + [v], rest, k + 1);
    hide ChildrenOf, Queued;
    assert queue[0] in queue;
    forall u | u in ChildrenOf(c, v)
      ensures Settled(NextQueue(c, queue, files), NextAt(queue, files, at), u, k + 1)
    {
      if u !in files + [v] { assert (u, k + 1) in NextQueue(c, queue, files); }
    }
  }

  lemma StepLevels(c: Context, queue: seq<Entry>, files: seq<Url>)
    requires queue != [] && Levelled(queue)
    ensures Levelled(NextQueue(c, queue, files))
    ensures forall e <- NextQueue(c, queue, files) :: e.1 >= queue[0].1
  {
    var u, d, rest := queue[0].0, queue[0].1, queue[1..];
    QueuedMeaning(c, ChildrenOf(c, u), files + [u], rest, d + 1);
    hide ChildrenOf, Queued, Levelled;
    AppendLevels(queue, NextQueue(c, queue, files));
  }

  lemma AppendLevels(queue: seq<Entry>, q: seq<Entry>)
    requires queue != [] && Levelled(queue) && queue[1..] <= q
    requires forall i :: |queue| - 1 <= i < |q| ==> q[i].1 == queue[0].1 + 1
    ensures Levelled(q) && forall e <- q :: e.1 >= queue[0].1
  {
    var k := queue[0].1;
    forall i | 0 <= i < |q| ensures k <= q[i].1 <= k + 1 {
      if i < |queue| - 1 { assert q[i] == queue[1..][i] == queue[i + 1] && queue[i + 1] in queue; }
    }
    forall i, j | 0 <= i < j < |q| ensures q[i].1 <= q[j].1 {
      if j < |queue| - 1 { assert q[i] == queue[i + 1] && q[j] == queue[j + 1]; }
    }
    assert forall e <- q :: k <= e.1 <= k + 1;
  }

  lemma StepStaysComplete(c: Context, initial: seq<Url>, queue: seq<Entry>, files: seq<Url>, at: map<Url, nat>)
    requires queue != [] && Levelled(queue) && Complete(c, initial, queue, files, at)
    requires queue[0].0 !in files ==> |queue| - 1 + |ChildrenOf(c, queue[0].0)| <= c.limits.maxSitemapFiles
    ensures Complete(c, initial, NextQueue(c, queue, files), NextFiles(queue, files), NextAt(queue, files, at))
  {
    StepLevels(c, queue, files);
    if queue[0].0 !in files { ChildrenQueued(c, queue, files, at); }
    var queue', at' := NextQueue(c, queue, files), NextAt(queue, files, at);
    hide ChildrenOf, Settled, Levelled, NextQueue;
    forall u | u in initial ensures Settled(queue', at', u, 0) {
      StaysSettled(c, queue, files, at, u, 0);
    }
    forall f | f in at' && at'[f] < c.limits.maxSitemapDepth ensures ChildrenSettled(c, queue', at', f, at'[f]) {
      if f in at {
        assert ChildrenSettled(c, queue, at, f, at[f]);
        forall u | u in ChildrenOf(c, f) ensures Settled(queue', at', u, at[f] + 1) {
          StaysSettled(c, queue, files, at, u, at[f] + 1);
        }
      }
    }
    hide ChildrenSettled;
    assert queue[0] in queue;
  }

  /** When the search is over, no entry that is left matters, so every path has been followed. */
  lemma {:induction false} PathFetched(c: Context, initial: seq<Url>, queue: seq<Entry>, files: seq<Url>,
      at: map<Url, nat>, path: seq<Url>)
    requires Complete(c, initial, queue, files, at) && IndexPath(c, initial, path)
    requires |path| - 1 <= c.limits.maxSitemapDepth
    requires forall e <- queue :: e.1 > c.limits.maxSitemapDepth
    ensures path[|path| - 1] in at && at[path[|path| - 1]] <= |path| - 1
  {
    var n := |path| - 1;
    hide ChildrenOf;
    if n == 0 {
      assert Settled(queue, at, path[0], 0);
    } else {
      PathFetched(c, initial, queue, files, at, path[..n]);
      var f := path[n - 1];
      assert f in at && at[f] <= n - 1 < c.limits.maxSitemapDepth;
      assert ChildrenSettled(c, queue, at, f, at[f]);
      assert Settled(queue, at, path[n], at[f] + 1);
    }
  }

  lemma StoppedIsComplete(c: Context, initial: seq<Url>, universe: seq<Url>, queue: seq<Entry>, files: seq<Url>,
      at: map<Url, nat>)
    requires Stops(c, queue, files) && Roomy(c, universe, queue, files)
    requires Levelled(queue) && Complete(c, initial, queue, files, at)
    ensures forall u :: WithinReach(c, initial, u) ==> u in files
  {
    assert forall e <- queue :: e.1 > c.limits.maxSitemapDepth;
    hide Levelled, ChildrenOf, Outstanding;
    forall u | WithinReach(c, initial, u) ensures u in files {
      var d: nat :| d <= c.limits.maxSitemapDepth && ReachedIn(c, initial, u, d);
      var path :| IndexPath(c, initial, path) && path[|path| - 1] == u && |path| - 1 == d;
      PathFetched(c, initial, queue, files, at, path);
    }
  }

  lemma {:induction false} SearchCompletes(c: Context, initial: seq<Url>, universe: seq<Url>, queue: seq<Entry>,
      files: seq<Url>, at: map<Url, nat>, b: Board)
    requires Roomy(c, universe, queue, files) && Levelled(queue) && Complete(c, initial, queue, files, at)
    ensures var r := Sitemaps(c, queue, files, b); !r.full ==> forall u :: WithinReach(c, initial, u) ==> u in r.files
    decreases Max(c.limits.maxSitemapFiles - |files|, 0), |queue|
  {
    var b' := SitemapsStep(c, queue, files, b);
    hide Sitemaps, NextQueue, NextFiles, Roomy, Levelled, Complete, WithinReach;
    if Stops(c, queue, files) {
      StoppedIsComplete(c, initial, universe, queue, files, at);
    } else {
      StepProgress(c, queue, files);
      StepStaysRoomy(c, universe, queue, files);
      StepLevels(c, queue, files);
      StepStaysComplete(c, initial, queue, files, at);
      SearchCompletes(c, initial, universe, NextQueue(c, queue, files), NextFiles(queue, files),
                      NextAt(queue, files, at), b');
    }
  }

  /**
   Every file fetched is within reach of the initial ones. If all that index files name fits in the queue, and the
   search was not cut off, every file within reach is fetched.
   */
  ghost predicate Searched(c: Context, initial: seq<Url>, files: seq<Url>, cut: bool) {
    && (forall f <- files :: WithinReach(c, initial, f))
    && (!cut ==> forall universe :: SmallSite(c, initial, universe) ==>
          forall u :: WithinReach(c, initial, u) ==> u in files)
  }

  /** The search fetches exactly the files within reach when they fit in the queue and the list has room. */
  lemma FilesWithinReach(c: Context, initial: seq<Url>, b: Board)
    ensures var r := Sitemaps(c, Initially(initial), [], b); Searched(c, initial, r.files, r.full)
  {
    var queue, files: seq<Url> := Initially(initial), [];
    StartReaches(c, initial);
    hide WithinReach, Sitemaps, AllReached, SmallSite, Roomy, Levelled, Complete, Initially;
    SearchReaches(c, initial, queue, files, b);
    forall universe | SmallSite(c, initial, universe) && !Sitemaps(c, queue, files, b).full
      ensures forall u :: WithinReach(c, initial, u) ==> u in Sitemaps(c, queue, files, b).files
    {
      StartCompletes(c, initial, universe);
      SearchCompletes(c, initial, universe, queue, files, map[], b);
    }
  }

  lemma StartReaches(c: Context, initial: seq<Url>)
    ensures AllReached(c, initial, Initially(initial), [])
  {
    forall e | e in Initially(initial) ensures ReachedIn(c, initial, e.0, e.1) {
      assert IndexPath(c, initial, [e.0]);
    }
    hide ReachedIn;
  }

  lemma StartCompletes(c: Context, initial: seq<Url>, universe: seq<Url>)
    requires SmallSite(c, initial, universe)
    ensures Roomy(c, universe, Initially(initial), []) && Levelled(Initially(initial))
    ensures Complete(c, initial, Initially(initial), [], map[])
  {
    var queue := Initially(initial);
    hide Outstanding, ChildrenOf, Distinct;
    forall u | u in initial ensures Settled(queue, map[], u, 0) {
      var i :| 0 <= i < |initial| && initial[i] == u;
      assert queue[i] == (u, 0) && queue[i] in queue;
    }
    hide Settled;
  }
}
