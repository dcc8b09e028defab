/** The budget of a research run, and the evidence it gathers. */
module Evidence {
  import opened Prelude
  import Text
  import Sorting

  // ---- Budgets ----

  /** The limits a deployment allows; durations are in seconds. */
  datatype AgentConfig = AgentConfig(
    maxSteps: nat, maxPages: nat, maxSearchQueries: nat, maxBrowserPages: nat, maxLlmCalls: nat, maxDuration: nat,
    maxQueryVariants: nat, maxBrowserActions: nat, maxResearchRounds: nat)

  /** The limits a request asks for. */
  datatype AgentLimits = AgentLimits(
    maxSteps: Option<nat>, maxPages: Option<nat>, maxSearchQueries: Option<nat>, maxBrowserPages: Option<nat>,
    maxLlmCalls: Option<nat>, maxDuration: Option<nat>)

  datatype AgentBudget = AgentBudget(
    maxSteps: nat, maxPages: nat, maxSearchQueries: nat, maxBrowserPages: nat, maxLlmCalls: nat, maxDuration: nat,
    maxQueryVariants: nat, maxBrowserActions: nat, maxResearchRounds: nat, deadline: real)

  datatype Exhausted = TimeLimit | StepLimit | PageLimit | SearchLimit

  function Bounded(asked: Option<nat>, allowed: nat): nat {
    Min(if asked.Some? then asked.value else allowed, allowed)
  }

  /** The budget of a run that starts at `now`. */
  function BudgetFor(config: AgentConfig, limits: Option<AgentLimits>, now: real): AgentBudget {
    var l := if limits.Some? then limits.value else AgentLimits(None, None, None, None, None, None);
    AgentBudget(
      Bounded(l.maxSteps, config.maxSteps),
      Bounded(l.maxPages, config.maxPages),
      Bounded(l.maxSearchQueries, config.maxSearchQueries),
      Bounded(l.maxBrowserPages, config.maxBrowserPages),
      Bounded(l.maxLlmCalls, config.maxLlmCalls),
      Bounded(l.maxDuration, config.maxDuration),
      config.maxQueryVariants,
      config.maxBrowserActions,
      config.maxResearchRounds,
      now + Bounded(l.maxDuration, config.maxDuration) as real)
  }

  /** The largest limit that exceeds neither the deployment's nor the request's. */
  ghost predicate Respects(b: nat, asked: Option<nat>, allowed: nat) {
    && b <= allowed && (asked.Some? ==> b <= asked.value)
    && (b == allowed || asked == Some(b))
  }

  /** A request can only lower what the deployment allows, whichever limit it names, and gets all that is left. */
  lemma BudgetWithinConfig(config: AgentConfig, limits: Option<AgentLimits>, now: real)
    ensures var b, none := BudgetFor(config, limits, now), AgentLimits(None, None, None, None, None, None);
      var l := if limits.Some? then limits.value else none;
      && Respects(b.maxSteps, l.maxSteps, config.maxSteps)
      && Respects(b.maxPages, l.maxPages, config.maxPages)
      && Respects(b.maxSearchQueries, l.maxSearchQueries, config.maxSearchQueries)
      && Respects(b.maxBrowserPages, l.maxBrowserPages, config.maxBrowserPages)
      && Respects(b.maxLlmCalls, l.maxLlmCalls, config.maxLlmCalls)
      && Respects(b.maxDuration, l.maxDuration, config.maxDuration)
    ensures var b := BudgetFor(config, limits, now);
      && b.deadline == now + b.maxDuration as real
      && b.maxQueryVariants == config.maxQueryVariants
      && b.maxBrowserActions == config.maxBrowserActions
      && b.maxResearchRounds == config.maxResearchRounds
  {
  }

  predicate Late(budget: AgentBudget, now: real) { now > budget.deadline }

  /** Counts attempts; `now` is the time at which the attempt is made. */
  class BudgetTracker {
    var currentSteps: nat
    var currentPages: nat
    var currentSearchQueries: nat

    constructor ()
      ensures currentSteps == currentPages == currentSearchQueries == 0
    {
      currentSteps, currentPages, currentSearchQueries := 0, 0, 0;
    }

    method RecordStep(budget: AgentBudget, now: real) returns (r: Result<nat, Exhausted>)
      modifies `currentSteps
      ensures Late(budget, now) ==> r == Err(TimeLimit) && currentSteps == old(currentSteps)
      ensures !Late(budget, now) ==> currentSteps == old(currentSteps) + 1
      ensures !Late(budget, now) ==> r == if currentSteps <= budget.maxSteps then Ok(currentSteps) else Err(StepLimit)
    {
      if Late(budget, now) {
        return Err(TimeLimit);
      }
      var prev := currentSteps;
      currentSteps := currentSteps + 1;
      r := if prev >= budget.maxSteps then Err(StepLimit) else Ok(prev + 1);
    }

    method RecordPage(budget: AgentBudget, now: real) returns (r: Result<nat, Exhausted>)
      modifies `currentPages
      ensures Late(budget, now) ==> r == Err(TimeLimit) && currentPages == old(currentPages)
      ensures !Late(budget, now) ==> currentPages == old(currentPages) + 1
      ensures !Late(budget, now) ==> r == if currentPages <= budget.maxPages then Ok(currentPages) else Err(PageLimit)
    {
      if Late(budget, now) {
        return Err(TimeLimit);
      }
      var prev := currentPages;
      currentPages := currentPages + 1;
      r := if prev >= budget.maxPages then Err(PageLimit) else Ok(prev + 1);
    }

    method RecordSearchQuery(budget: AgentBudget, now: real) returns (r: Result<nat, Exhausted>)
      modifies `currentSearchQueries
      ensures Late(budget, now) ==> r == Err(TimeLimit) && currentSearchQueries == old(currentSearchQueries)
      ensures !Late(budget, now) ==> currentSearchQueries == old(currentSearchQueries) + 1
      ensures !Late(budget, now) ==>
        r == if currentSearchQueries <= budget.maxSearchQueries then Ok(currentSearchQueries) else Err(SearchLimit)
    {
      if Late(budget, now) {
        return Err(TimeLimit);
      }
      var prev := currentSearchQueries;
      currentSearchQueries := currentSearchQueries + 1;
      r := if prev >= budget.maxSearchQueries then Err(SearchLimit) else Ok(prev + 1);
    }
  }

  // ---- Evidence ----

  /** `score` stands for relevance times the weight of the source. */
  datatype Item = Item(
    id: string, sourceUrl: string, title: Option<string>, contentHash: string, excerpt: string, score: real)

  function EvidenceId(n: nat): string { "E" + Text.Decimal(n) }

  lemma EvidenceIdInjective(a: nat, b: nat)
    requires EvidenceId(a) == EvidenceId(b)
    ensures a == b
  {
    assert EvidenceId(a)[1..] == Text.Decimal(a) && EvidenceId(b)[1..] == Text.Decimal(b);
    Text.DecimalInjective(a, b);
  }

  /** The first item with the id. */
  function Find(items: seq<Item>, id: string): (r: Option<Item>)
    ensures r.Some? <==> exists e <- items :: e.id == id
    ensures r.Some? ==> r.value in items && r.value.id == id
  {
    if items == [] then None else if items[0].id == id then Some(items[0]) else Find(items[1..], id)
  }

  function HigherScore(): (Item, Item) -> bool { (a: Item, b: Item) => a.score > b.score }

  function TopRelevant(items: seq<Item>, limit: nat): seq<Item> {
    var ranked := Sorting.Sorted(items, HigherScore());
    if |ranked| > limit then ranked[..limit] else ranked
  }

  /** What the cut leaves out. */
  function LeftOut(items: seq<Item>, limit: nat): seq<Item> {
    Sorting.Sorted(items, HigherScore())[|TopRelevant(items, limit)|..]
  }

  lemma TopSplits(items: seq<Item>, limit: nat)
    ensures |TopRelevant(items, limit)| == Min(limit, |items|)
    ensures multiset(TopRelevant(items, limit)) + multiset(LeftOut(items, limit)) == multiset(items)
    ensures Sorting.InOrder(TopRelevant(items, limit) + LeftOut(items, limit), HigherScore())
  {
    Sorting.SortedInOrder(items, HigherScore());
    Sorting.SortedKeeps(items, HigherScore());
    var ranked, n := Sorting.Sorted(items, HigherScore()), |TopRelevant(items, limit)|;
    assert TopRelevant(items, limit) == ranked[..n] && LeftOut(items, limit) == ranked[n..];
    assert ranked == ranked[..n] + ranked[n..];
    hide *;
  }

  /** The best items, best first: nothing left out scores higher than anything kept. */
  lemma TopRelevantMeaning(items: seq<Item>, limit: nat)
    ensures var top, rest := TopRelevant(items, limit), LeftOut(items, limit);
      && |top| == Min(limit, |items|)
      && multiset(top) + multiset(rest) == multiset(items)
      && (forall i, j :: 0 <= i < j < |top| ==> top[i].score >= top[j].score)
      && (forall i, j :: 0 <= i < |top| && 0 <= j < |rest| ==> top[i].score >= rest[j].score)
    ensures forall e <- TopRelevant(items, limit) :: e in items
  {
    TopSplits(items, limit);
    var top, rest := TopRelevant(items, limit), LeftOut(items, limit);
    hide TopRelevant, LeftOut;
    forall i, j | 0 <= i < |top| && 0 <= j < |rest| ensures top[i].score >= rest[j].score {
      assert (top + rest)[i] == top[i] && (top + rest)[|top| + j] == rest[j];
    }
    forall i, j | 0 <= i < j < |top| ensures top[i].score >= top[j].score {
      assert (top + rest)[i] == top[i] && (top + rest)[j] == top[j];
    }
    forall e | e in top ensures e in items {
      assert e in multiset(top) + multiset(rest);
      assert e in multiset(items);
    }
  }

  /** The ids of the items are E1, E2 and so on. */
  ghost predicate NumberedFromOne(items: seq<Item>) {
    forall i :: 0 <= i < |items| ==> items[i].id == EvidenceId(i + 1)
  }

  ghost predicate HashesDistinct(items: seq<Item>) {
    forall i, j :: 0 <= i < j < |items| ==> items[i].contentHash != items[j].contentHash
  }

  lemma IdsDistinct(items: seq<Item>, i: nat, j: nat)
    requires NumberedFromOne(items) && i < |items| && j < |items| && items[i].id == items[j].id
    ensures i == j
  {
    EvidenceIdInjective(i + 1, j + 1);
  }

  /** Finding by id finds each item of a numbered store. */
  lemma FindsItself(items: seq<Item>, e: Item)
    requires NumberedFromOne(items) && e in items
    ensures Find(items, e.id) == Some(e)
  {
    var found := Find(items, e.id).value;
    var i :| 0 <= i < |items| && items[i] == e;
    var j :| 0 <= j < |items| && items[j] == found;
    IdsDistinct(items, i, j);
  }

  function HashesOf(items: seq<Item>): set<string> { set e <- items :: e.contentHash }

  ghost predicate Consistent(items: seq<Item>, hashes: set<string>, nextId: nat) {
    && nextId == |items| + 1
    && NumberedFromOne(items)
    && HashesDistinct(items)
    && hashes == HashesOf(items)
  }

  lemma InsertConsistent(items: seq<Item>, hashes: set<string>, nextId: nat, e: Item)
    requires Consistent(items, hashes, nextId) && e.contentHash !in hashes && e.id == EvidenceId(nextId)
    ensures Consistent(items + [e], hashes + {e.contentHash}, nextId + 1)
  {
    HashesOfAppend(items, e);
    hide EvidenceId;
    assert forall i :: 0 <= i < |items| ==> items[i].contentHash in HashesOf(items);
    hide HashesOf;
  }

  lemma HashesOfAppend(items: seq<Item>, e: Item)
    ensures HashesOf(items + [e]) == HashesOf(items) + {e.contentHash}
  {
    assert e in items + [e];
    assert forall f <- items :: f in items + [e];
  }

  class EvidenceStore {
    var items: seq<Item>
    var visitedUrls: set<string>
    var contentHashes: set<string>
    var nextId: nat

    constructor ()
      ensures items == [] && visitedUrls == {} && contentHashes == {} && nextId == 1
      ensures Valid()
    {
      items, visitedUrls, contentHashes, nextId := [], {}, {}, 1;
    }

    /** Ids are numbered without gaps, and no content is stored twice. */
    ghost predicate Valid()
      reads this
    {
      Consistent(items, contentHashes, nextId)
    }

    method NextEvidenceId() returns (id: string)
      modifies `nextId
      ensures id == EvidenceId(old(nextId)) && nextId == old(nextId) + 1
    {
      id := EvidenceId(nextId);
      nextId := nextId + 1;
    }

    method RecordVisitedUrl(url: string)
      modifies `visitedUrls
      ensures visitedUrls == old(visitedUrls) + {url}
    {
      visitedUrls := visitedUrls + {url};
    }

    predicate HasVisitedUrl(url: string)
      reads this
    {
      url in visitedUrls
    }

    /** Stores an item unless its content is known; an item without an id gets the next one. */
    method Insert(e: Item) returns (id: Option<string>)
      modifies `items, `contentHashes, `nextId
      ensures e.contentHash in old(contentHashes) ==>
        id == None && items == old(items) && nextId == old(nextId) && contentHashes == old(contentHashes)
      ensures e.contentHash !in old(contentHashes) ==>
        var given := if e.id == "" then EvidenceId(old(nextId)) else e.id;
        && id == Some(given)
        && items == old(items) + [e.(id := given)]
        && nextId == old(nextId) + (if e.id == "" then 1 else 0)
        && contentHashes == old(contentHashes) + {e.contentHash}
      ensures old(Valid()) && e.id == "" ==> Valid()
    {
      if e.contentHash in contentHashes {
        return None;
      }
      contentHashes := contentHashes + {e.contentHash};
      var stored := e;
      if stored.id == "" {
        var next := NextEvidenceId();
        stored := stored.(id := next);
      }
      if Consistent(items, old(contentHashes), old(nextId)) && e.id == "" {
        InsertConsistent(items, old(contentHashes), old(nextId), stored);
      }
      hide Consistent, EvidenceId;
      items := items + [stored];
      id := Some(stored.id);
    }

    function Get(id: string): Option<Item>
      reads this
    {
      Find(items, id)
    }
  }
}
