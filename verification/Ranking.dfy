/** Ordering the discovered links by relevance. */
module Ranking {
  import opened Prelude
  import opened Dedupe
  import opened Discovery
  import Sorting

  function Score(l: Link): real { if l.score.Some? then l.score.value else 0.0 }

  ghost predicate Descending(links: seq<Link>) {
    forall i, j :: 0 <= i <= j < |links| ==> Score(links[i]) >= Score(links[j])
  }

  function HigherScore(): (Link, Link) -> bool { (a: Link, b: Link) => Score(a) > Score(b) }

  function UrlOf(): Link -> Url { (l: Link) => l.url }

  function WithScores(links: seq<Link>, scoring: Link -> real): (r: seq<Link>)
    ensures |r| == |links| && forall i :: 0 <= i < |links| ==> r[i] == links[i].(score := Some(scoring(links[i])))
  {
    seq(|links|, i requires 0 <= i < |links| => links[i].(score := Some(scoring(links[i]))))
  }

  /** The links with their scores, in a stable descending order. */
  function Ranked(links: seq<Link>, scoring: Link -> real): seq<Link> {
    Sorting.Sorted(WithScores(links, scoring), HigherScore())
  }

  function InOrder(links: seq<Link>, scoring: Option<Link -> real>): seq<Link> {
    if scoring.Some? then Ranked(links, scoring.value) else links
  }

  /** Ranking is a permutation of the URLs, and puts higher scores first. */
  lemma RankedMeaning(links: seq<Link>, scoring: Link -> real)
    ensures Descending(Ranked(links, scoring))
    ensures multiset(UrlsOf(Ranked(links, scoring))) == multiset(UrlsOf(links))
    ensures forall m <- Ranked(links, scoring) :: exists l <- links :: m == l.(score := Some(scoring(l)))
  {
    var scored := WithScores(links, scoring);
    Sorting.SortedInOrder(scored, HigherScore());
    Sorting.SortedImages(scored, HigherScore(), UrlOf());
    assert UrlsOf(Ranked(links, scoring)) == Sorting.Map(Ranked(links, scoring), UrlOf());
    assert UrlsOf(links) == Sorting.Map(scored, UrlOf());
    forall m | m in Ranked(links, scoring) ensures exists l <- links :: m == l.(score := Some(scoring(l))) {
      assert m in multiset(scored);
      var i :| 0 <= i < |scored| && scored[i] == m;
      assert links[i] in links;
    }
    hide UrlsOf, WithScores, Ranked;
  }

  /** Ranking and truncating a list of distinct URLs keeps them distinct and keeps any property of each URL. */
  lemma RankedAndTruncated(c: Context, seed: Url, links: seq<Link>, seen: set<Url>, scoring: Option<Link -> real>,
      n: nat)
    requires Listing(c, seed, UrlsOf(links), seen) && n <= |links|
    ensures |InOrder(links, scoring)| == |links|
    ensures var kept := UrlsOf(InOrder(links, scoring)[..n]);
      Distinct(kept) && AllSeen(kept, seen) && AllAdmissible(c, seed, kept)
  {
    var urls, ordered := UrlsOf(links), InOrder(links, scoring);
    if scoring.Some? {
      RankedMeaning(links, scoring.value);
    }
    Sorting.DistinctPermutation(urls, UrlsOf(ordered));
    assert UrlsOf(ordered[..n]) == UrlsOf(ordered)[..n];
    forall u | u in UrlsOf(ordered)[..n] ensures u in urls {
      assert u in multiset(UrlsOf(ordered));
    }
    hide Ranked, UrlsOf, NothingLost, NormalForms, Admissible, InOrder;
  }
}
