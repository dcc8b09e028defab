/** A research run: an untrusted plan and an untrusted synthesis around a budget and an evidence store. */
module AgentRun {
  import opened Prelude
  import Text
  import opened Passages
  import opened Evidence
  import opened Citations

  datatype Subgoal = Subgoal(targetUrls: seq<string>, searchQueries: seq<string>)

  datatype Plan = Plan(subgoals: seq<Subgoal>)

  datatype SearchResult = SearchResult(url: string, title: Option<string>)

  datatype ScrapeOutput = ScrapeOutput(title: Option<string>, markdown: Option<string>, text: Option<string>)

  /** A follow-up call: a search, or another tool, which the run ignores. */
  datatype ToolCall = SearchCall(query: string) | OtherCall

  datatype Evaluation = Evaluation(isSufficient: bool, followups: seq<ToolCall>)

  datatype Synthesis = Synthesis(markdownAnswer: Option<string>, claims: seq<Claim>)

  datatype AgentResult =
    | Failed
    | Cancelled
    | Completed(
        markdownAnswer: Option<string>, citations: seq<Citation>, claims: seq<Claim>, warnings: seq<Warning>)

  /** The hash of a passage, and the score of a source. */
  datatype Judge = Judge(hash: string -> string, score: (string, Option<string>) -> real)

  // ---- Passages ----

  /** The content a scrape yields. */
  function ContentOf(o: ScrapeOutput): string {
    if o.markdown.Some? then o.markdown.value else if o.text.Some? then o.text.value else ""
  }

  /** The passages of an answer. */
  function PassagesOf(o: ScrapeOutput): seq<string> { PassagesIn(ContentOf(o)) }

  /** The markdown of an answer is read for passages, or its text if there is no markdown. */
  lemma PassagesOfMeaning(o: ScrapeOutput, t: string)
    ensures t in PassagesOf(o)
       <==> || (o.markdown.Some? && IsPassageOf(o.markdown.value, t))
            || (o.markdown.None? && o.text.Some? && IsPassageOf(o.text.value, t))
  {
    assert Text.Trim("") == "" by { assert Text.TrimStart("") == ""; }
    hide PassagesIn, IsPassageOf, Text.Trim;
    BlankHasNone("");
    PassagesMeaning(ContentOf(o), t);
  }

  // ---- The tools ----

  /** A call and its answer. */
  datatype Call =
    | ScrapeMade(url: string, output: Option<ScrapeOutput>)
    | SearchMade(query: string, results: Option<seq<SearchResult>>)

  function ScrapesOf(calls: seq<Call>): seq<string> {
    if calls == [] then []
    else
      var last := calls[|calls| - 1];
      ScrapesOf(calls[..|calls| - 1]) + if last.ScrapeMade? then [last.url] else []
  }

  function SearchesOf(calls: seq<Call>): seq<string> {
    if calls == [] then []
    else
      var last := calls[|calls| - 1];
      SearchesOf(calls[..|calls| - 1]) + if last.SearchMade? then [last.query] else []
  }

  /** The only way to an answer; the answers are arbitrary, and every call is on record. */
  class ToolExecutor {
    ghost var calls: seq<Call>

    constructor ()
      ensures calls == []
    {
      calls := [];
    }

    method Scrape(url: string) returns (output: Option<ScrapeOutput>)
      modifies this
      ensures calls == old(calls) + [ScrapeMade(url, output)]
    {
      output := *;
      calls := calls + [ScrapeMade(url, output)];
    }

    method Search(query: string) returns (results: Option<seq<SearchResult>>)
      modifies this
      ensures calls == old(calls) + [SearchMade(query, results)]
    {
      results := *;
      calls := calls + [SearchMade(query, results)];
    }
  }

  /** The only way to a text and its claims; they are arbitrary, and every answer is on record. */
  class ResearchSynthesizer {
    ghost var answers: seq<Synthesis>

    constructor ()
      ensures answers == []
    {
      answers := [];
    }

    method Synthesize() returns (s: Synthesis)
      modifies this
      ensures answers == old(answers) + [s]
    {
      s := *;
      answers := answers + [s];
    }
  }

  // ---- What a run has done so far ----

  /** The charges, the store, and the calls made. */
  datatype Ledger = Ledger(
    pages: nat,
    queries: nat,
    items: seq<Item>,
    hashes: set<string>,
    nextId: nat,
    visited: set<string>,
    calls: seq<Call>)

  /** The scrape calls made are exactly the pages granted; likewise the searches; no URL is scraped twice. */
  ghost predicate WithinBudget(b: AgentBudget, l: Ledger) {
    && |ScrapesOf(l.calls)| == Min(l.pages, b.maxPages)
    && |SearchesOf(l.calls)| == Min(l.queries, b.maxSearchQueries)
    && Distinct(ScrapesOf(l.calls))
    && forall u :: u in l.visited <==> u in ScrapesOf(l.calls)
  }

  /** The title that an answer gives itself goes before any other. */
  ghost predicate TitleOf(o: ScrapeOutput, title: Option<string>) { o.title.Some? ==> title == o.title }

  /** The item is a passage of the answer to a call that scraped its URL. */
  ghost predicate Quotes(judge: Judge, call: Call, e: Item) {
    && call.ScrapeMade? && call.url == e.sourceUrl && call.output.Some?
    && e.excerpt in PassagesOf(call.output.value) && e.contentHash == judge.hash(e.excerpt)
    && TitleOf(call.output.value, e.title)
  }

  ghost predicate FromCalls(judge: Judge, calls: seq<Call>, e: Item) { exists c <- calls :: Quotes(judge, c, e) }

  ghost predicate AllFromCalls(judge: Judge, items: seq<Item>, calls: seq<Call>) {
    forall e <- items :: FromCalls(judge, calls, e)
  }

  ghost predicate Lawful(judge: Judge, b: AgentBudget, l: Ledger) {
    && WithinBudget(b, l)
    && Consistent(l.items, l.hashes, l.nextId)
    && AllFromCalls(judge, l.items, l.calls)
  }

  class AgentState {
    const budget: AgentBudget
    const tracker: BudgetTracker
    const evidence: EvidenceStore
    /** Set and cleared by others at any moment; a cancelled job stays cancelled. */
    var isPaused: bool
    var isCancelled: bool

    constructor (budget: AgentBudget)
      ensures this.budget == budget && fresh(tracker) && fresh(evidence)
      ensures IsNew() && !isPaused && !isCancelled
    {
      this.budget := budget;
      isPaused, isCancelled := false, false;
      tracker := new BudgetTracker();
      evidence := new EvidenceStore();
    }

    ghost predicate IsNew()
      reads this, tracker, evidence
    {
      Since([]) == Ledger(0, 0, [], {}, 1, {}, [])
    }

    /** The ledger of a run that has made these calls. */
    ghost function Since(calls: seq<Call>): Ledger
      reads this, tracker, evidence
    {
      Ledger(
        tracker.currentPages, tracker.currentSearchQueries, evidence.items, evidence.contentHashes, evidence.nextId,
        evidence.visitedUrls, calls)
    }
  }

  /** The ledger of a run that began when `before` had been called. */
  ghost function Now(state: AgentState, tools: ToolExecutor, before: seq<Call>): Ledger
    requires |before| <= |tools.calls|
    reads state, state.tracker, state.evidence, tools
  {
    state.Since(tools.calls[|before|..])
  }

  /** The run has been lawful since then. */
  ghost predicate Keeps(judge: Judge, state: AgentState, tools: ToolExecutor, before: seq<Call>)
    reads state, state.tracker, state.evidence, tools
  {
    before <= tools.calls && Lawful(judge, state.budget, Now(state, tools, before))
  }

  /** Reads the flags, which others may have moved since they were last read. */
  method IsActive(judge: Judge, tools: ToolExecutor, state: AgentState, ghost before: seq<Call>) returns (active: bool)
    requires Keeps(judge, state, tools, before)
    modifies state`isPaused, state`isCancelled
    ensures Keeps(judge, state, tools, before)
    ensures old(state.isCancelled) ==> state.isCancelled
    ensures active <==> !state.isCancelled && !state.isPaused
  {
    hide Lawful;
    var paused: bool, cancelled: bool := *, *;
    state.isPaused := paused;
    state.isCancelled := state.isCancelled || cancelled;
    active := !state.isCancelled && !state.isPaused;
  }

  lemma StartLawful(judge: Judge, b: AgentBudget)
    ensures Lawful(judge, b, Ledger(0, 0, [], {}, 1, {}, []))
  {
  }

  lemma OneMoreCall(calls: seq<Call>, c: Call)
    ensures ScrapesOf(calls + [c]) == ScrapesOf(calls) + if c.ScrapeMade? then [c.url] else []
    ensures SearchesOf(calls + [c]) == SearchesOf(calls) + if c.SearchMade? then [c.query] else []
  {
    assert (calls + [c])[..|calls|] == calls;
  }

  lemma {:induction false} CallsScraped(calls: seq<Call>, c: Call)
    requires c in calls && c.ScrapeMade?
    ensures c.url in ScrapesOf(calls)
  {
    if c != calls[|calls| - 1] { CallsScraped(calls[..|calls| - 1], c); }
  }

  // ---- Storing an answer ----

  /** The store after one passage. */
  function WithPassage(judge: Judge, l: Ledger, url: string, title: Option<string>, passage: string): Ledger {
    var h := judge.hash(passage);
    if h in l.hashes then l
    else
      l.(items := l.items + [Item(EvidenceId(l.nextId), url, title, h, passage, judge.score(url, title))],
         hashes := l.hashes + {h},
         nextId := l.nextId + 1)
  }

  function WithPassages(judge: Judge, l: Ledger, url: string, title: Option<string>, passages: seq<string>): Ledger {
    if passages == [] then l
    else
      var init, last := passages[..|passages| - 1], passages[|passages| - 1];
      WithPassage(judge, WithPassages(judge, l, url, title, init), url, title, last)
  }

  lemma WithPassageLawful(judge: Judge, b: AgentBudget, l: Ledger, title: Option<string>, passage: string, c: Call)
    requires Lawful(judge, b, l) && c in l.calls && c.ScrapeMade? && c.output.Some?
    requires passage in PassagesOf(c.output.value) && TitleOf(c.output.value, title)
    ensures Lawful(judge, b, WithPassage(judge, l, c.url, title, passage))
  {
    var h := judge.hash(passage);
    hide PassagesOf;
    if h !in l.hashes {
      var item := Item(EvidenceId(l.nextId), c.url, title, h, passage, judge.score(c.url, title));
      InsertConsistent(l.items, l.hashes, l.nextId, item);
      assert Quotes(judge, c, item);
    }
    hide Consistent, EvidenceId, WithinBudget, Quotes;
  }

  lemma {:induction false} WithPassagesLawful(judge: Judge, b: AgentBudget, l: Ledger, title: Option<string>,
      passages: seq<string>, c: Call)
    requires Lawful(judge, b, l) && c in l.calls && c.ScrapeMade? && c.output.Some?
    requires (forall p <- passages :: p in PassagesOf(c.output.value)) && TitleOf(c.output.value, title)
    ensures var m := WithPassages(judge, l, c.url, title, passages);
      Lawful(judge, b, m) && m.calls == l.calls
  {
    hide Lawful, PassagesOf;
    if passages != [] {
      var init, last := passages[..|passages| - 1], passages[|passages| - 1];
      assert last in passages && forall p <- init :: p in passages;
      WithPassagesLawful(judge, b, l, title, init, c);
      WithPassageLawful(judge, b, WithPassages(judge, l, c.url, title, init), title, last, c);
    }
  }

  /** Every passage ends up stored, unless its content was known. */
  lemma {:induction false} PassagesKnown(judge: Judge, l: Ledger, url: string, title: Option<string>,
      passages: seq<string>)
    ensures forall p <- passages :: judge.hash(p) in WithPassages(judge, l, url, title, passages).hashes
    ensures l.hashes <= WithPassages(judge, l, url, title, passages).hashes
    ensures l.items <= WithPassages(judge, l, url, title, passages).items
  {
    if passages != [] {
      PassagesKnown(judge, l, url, title, passages[..|passages| - 1]);
      assert passages == passages[..|passages| - 1] + [passages[|passages| - 1]];
      hide EvidenceId;
    }
  }

  method StorePassage(judge: Judge, state: AgentState, url: string, title: Option<string>, passage: string,
      ghost calls: seq<Call>)
    modifies state.evidence
    ensures state.Since(calls) == WithPassage(judge, old(state.Since(calls)), url, title, passage)
  {
    hide EvidenceId, Consistent;
    var id := state.evidence.Insert(Item("", url, title, judge.hash(passage), passage, judge.score(url, title)));
  }

  method StorePassages(judge: Judge, state: AgentState, url: string, title: Option<string>, content: string,
      ghost calls: seq<Call>)
    modifies state.evidence
    ensures state.Since(calls)
         == WithPassages(judge, old(state.Since(calls)), url, title, PassagesIn(content))
  {
    var paragraphs := Paragraphs(content);
    ghost var before := state.Since(calls);
    hide WithPassage, IsPassage, Text.Trim, Paragraphs;
    for i := 0 to |paragraphs|
      invariant state.Since(calls) == WithPassages(judge, before, url, title, Fitting(paragraphs[..i]))
    {
      PassagesNext(judge, before, url, title, paragraphs, i);
      hide Fitting, WithPassages;
      var trimmed := Text.Trim(paragraphs[i]);
      if IsPassage(trimmed) {
        StorePassage(judge, state, url, title, trimmed, calls);
      }
    }
    assert paragraphs[..|paragraphs|] == paragraphs;
  }

  lemma PassagesNext(judge: Judge, l: Ledger, url: string, title: Option<string>, paragraphs: seq<string>, i: nat)
    requires i < |paragraphs|
    ensures
      var trimmed := Text.Trim(paragraphs[i]);
      var before := WithPassages(judge, l, url, title, Fitting(paragraphs[..i]));
      WithPassages(judge, l, url, title, Fitting(paragraphs[..i + 1]))
      == if IsPassage(trimmed) then WithPassage(judge, before, url, title, trimmed) else before
  {
    assert paragraphs[..i + 1][..i] == paragraphs[..i];
    var ps, trimmed := Fitting(paragraphs[..i]), Text.Trim(paragraphs[i]);
    hide WithPassage, IsPassage, Text.Trim;
    assert (ps + [trimmed])[..|ps|] == ps && ps + [] == ps;
  }

  // ---- Scraping within the budget ----

  lemma ScrapeGranted(judge: Judge, b: AgentBudget, l: Ledger, url: string, output: Option<ScrapeOutput>)
    requires Lawful(judge, b, l) && url !in l.visited && l.pages < b.maxPages
    ensures Lawful(judge, b, Charged(l, url, output))
  {
    OneMoreCall(l.calls, ScrapeMade(url, output));
    hide Consistent, Quotes, ScrapesOf, SearchesOf;
    forall e | e in l.items ensures FromCalls(judge, l.calls + [ScrapeMade(url, output)], e) {
      MoreCalls(judge, l.calls, ScrapeMade(url, output), e);
    }
    hide FromCalls;
  }

  lemma MoreCalls(judge: Judge, calls: seq<Call>, c: Call, e: Item)
    requires FromCalls(judge, calls, e)
    ensures FromCalls(judge, calls + [c], e)
  {
    hide Quotes;
    var d :| d in calls && Quotes(judge, d, e);
    assert d in calls + [c];
  }

  lemma ScrapeRefused(judge: Judge, b: AgentBudget, l: Ledger)
    requires Lawful(judge, b, l) && l.pages >= b.maxPages
    ensures Lawful(judge, b, l.(pages := l.pages + 1))
  {
    hide Consistent, Distinct, AllFromCalls, ScrapesOf, SearchesOf;
  }

  /** How one attempt to scrape went. */
  datatype Outcome = Refused(why: Exhausted) | ToolFailed | Answered(output: ScrapeOutput)

  function Charged(l: Ledger, url: string, output: Option<ScrapeOutput>): Ledger {
    l.(pages := l.pages + 1, visited := l.visited + {url}, calls := l.calls + [ScrapeMade(url, output)])
  }

  /** After the deadline nothing is charged. */
  function AfterRefusal(l: Ledger, why: Exhausted): Ledger {
    if why == TimeLimit then l else l.(pages := l.pages + 1)
  }

  /** The ledger after an attempt: a refusal costs no scrape, and an answer is stored passage by passage. */
  function AfterScrape(judge: Judge, l: Ledger, url: string, suggestedTitle: Option<string>, outcome: Outcome): Ledger {
    match outcome
    case Refused(why) => AfterRefusal(l, why)
    case ToolFailed => Charged(l, url, None)
    case Answered(o) => Extracted(judge, Charged(l, url, Some(o)), url, suggestedTitle, o)
  }

  function Extracted(judge: Judge, l: Ledger, url: string, suggestedTitle: Option<string>, o: ScrapeOutput): Ledger {
    var title := if o.title.Some? then o.title else suggestedTitle;
    if Text.Trim(ContentOf(o)) == "" then l else WithPassages(judge, l, url, title, PassagesOf(o))
  }

  /** Stores the passages of an answer. */
  method ExtractEvidence(judge: Judge, state: AgentState, url: string, suggestedTitle: Option<string>, o: ScrapeOutput,
      ghost calls: seq<Call>)
    requires Lawful(judge, state.budget, state.Since(calls)) && ScrapeMade(url, Some(o)) in calls
    modifies state.evidence
    ensures Lawful(judge, state.budget, state.Since(calls))
    ensures state.Since(calls) == Extracted(judge, old(state.Since(calls)), url, suggestedTitle, o)
    ensures forall p <- PassagesOf(o) :: judge.hash(p) in state.evidence.contentHashes
  {
    var title := if o.title.Some? then o.title else suggestedTitle;
    var content := ContentOf(o);
    ghost var passages := PassagesOf(o);
    hide Lawful, WithPassages, PassagesIn, Text.Trim, ContentOf;
    if Text.Trim(content) == "" {
      BlankHasNone(content);
    } else {
      PassagesKnown(judge, state.Since(calls), url, title, passages);
      WithPassagesLawful(judge, state.budget, state.Since(calls), title, passages, ScrapeMade(url, Some(o)));
      StorePassages(judge, state, url, title, content, calls);
    }
  }

  lemma CallsSince(before: seq<Call>, calls: seq<Call>, c: Call)
    requires before <= calls
    ensures before <= calls + [c] && (calls + [c])[|before|..] == calls[|before|..] + [c]
  {
  }

  /** Charges one page and, if it is granted, scrapes a URL that was not visited before. */
  method ChargedScrape(judge: Judge, tools: ToolExecutor, state: AgentState, url: string, ghost before: seq<Call>)
      returns (refusal: Option<Exhausted>, output: Option<ScrapeOutput>)
    requires Keeps(judge, state, tools, before) && !state.evidence.HasVisitedUrl(url)
    modifies tools, state.tracker, state.evidence
    ensures Keeps(judge, state, tools, before)
    ensures Now(state, tools, before)
         == if refusal.Some? then AfterRefusal(old(Now(state, tools, before)), refusal.value)
            else Charged(old(Now(state, tools, before)), url, output)
    ensures refusal == Some(PageLimit) ==> old(state.tracker.currentPages) >= state.budget.maxPages
    ensures refusal.None? ==> old(state.tracker.currentPages) < state.budget.maxPages
  {
    var now: real := *;
    ghost var l := Now(state, tools, before);
    hide Lawful;
    var granted := state.tracker.RecordPage(state.budget, now);
    if granted.Err? {
      if !Late(state.budget, now) { ScrapeRefused(judge, state.budget, l); }
      return Some(granted.error), None;
    }
    state.evidence.RecordVisitedUrl(url);
    ghost var calls := tools.calls;
    output := tools.Scrape(url);
    refusal := None;
    CallsSince(before, calls, ScrapeMade(url, output));
    ScrapeGranted(judge, state.budget, l, url, output);
  }

  /** Charges one page, scrapes a URL that was not visited before, and stores what it yields. */
  method ScrapeAndExtractEvidence(judge: Judge, tools: ToolExecutor, state: AgentState, url: string,
      suggestedTitle: Option<string>, ghost before: seq<Call>) returns (ok: bool, ghost outcome: Outcome)
    requires Keeps(judge, state, tools, before) && !state.evidence.HasVisitedUrl(url)
    modifies tools, state.tracker, state.evidence
    ensures Keeps(judge, state, tools, before)
    ensures Now(state, tools, before)
         == AfterScrape(judge, old(Now(state, tools, before)), url, suggestedTitle, outcome)
    ensures ok == outcome.Answered?
    ensures outcome.Answered? ==>
      forall p <- PassagesOf(outcome.output) :: judge.hash(p) in state.evidence.contentHashes
    ensures outcome.Refused? && outcome.why == PageLimit ==> old(state.tracker.currentPages) >= state.budget.maxPages
    ensures !outcome.Refused? ==> old(state.tracker.currentPages) < state.budget.maxPages
  {
    hide Lawful, Extracted, AfterRefusal;
    ghost var l := Now(state, tools, before);
    var refusal, output := ChargedScrape(judge, tools, state, url, before);
    if refusal.Some? {
      return false, Refused(refusal.value);
    }
    if output.None? {
      return false, ToolFailed;
    }
    ghost var calls := tools.calls[|before|..];
    assert calls == l.calls + [ScrapeMade(url, output)];
    ExtractEvidence(judge, state, url, suggestedTitle, output.value, calls);
    return true, Answered(output.value);
  }

  lemma SearchGranted(judge: Judge, b: AgentBudget, l: Ledger, query: string, results: Option<seq<SearchResult>>)
    requires Lawful(judge, b, l) && l.queries < b.maxSearchQueries
    ensures Lawful(judge, b, l.(queries := l.queries + 1, calls := l.calls + [SearchMade(query, results)]))
  {
    OneMoreCall(l.calls, SearchMade(query, results));
    hide Consistent, Quotes, ScrapesOf, SearchesOf;
    forall e | e in l.items ensures FromCalls(judge, l.calls + [SearchMade(query, results)], e) {
      MoreCalls(judge, l.calls, SearchMade(query, results), e);
    }
    hide FromCalls;
  }

  lemma SearchRefused(judge: Judge, b: AgentBudget, l: Ledger)
    requires Lawful(judge, b, l) && l.queries >= b.maxSearchQueries
    ensures Lawful(judge, b, l.(queries := l.queries + 1))
  {
    hide Consistent, Distinct, AllFromCalls, ScrapesOf, SearchesOf;
  }

  /** Charges one search query and, if it is granted, searches. */
  method ChargedSearch(judge: Judge, tools: ToolExecutor, state: AgentState, query: string, ghost before: seq<Call>)
      returns (granted: bool, results: Option<seq<SearchResult>>)
    requires Keeps(judge, state, tools, before)
    modifies tools, state.tracker
    ensures Keeps(judge, state, tools, before)
    ensures tools.calls == old(tools.calls) + if granted then [SearchMade(query, results)] else []
  {
    var now: real := *;
    ghost var l := Now(state, tools, before);
    results := None;
    hide Lawful;
    var charge := state.tracker.RecordSearchQuery(state.budget, now);
    granted := charge.Ok?;
    if granted {
      ghost var calls := tools.calls;
      results := tools.Search(query);
      CallsSince(before, calls, SearchMade(query, results));
      SearchGranted(judge, state.budget, l, query, results);
    } else if !Late(state.budget, now) {
      SearchRefused(judge, state.budget, l);
    }
  }

  /** Scrapes the first few results that were not visited before. */
  method ScrapeResults(judge: Judge, tools: ToolExecutor, state: AgentState, results: seq<SearchResult>, count: nat,
      stoppable: bool, ghost before: seq<Call>)
    requires Keeps(judge, state, tools, before)
    modifies tools, state`isPaused, state`isCancelled, state.tracker, state.evidence
    ensures Keeps(judge, state, tools, before)
    ensures old(state.isCancelled) ==> state.isCancelled
  {
    hide Keeps;
    for i := 0 to Min(count, |results|)
      invariant Keeps(judge, state, tools, before)
      invariant old(state.isCancelled) ==> state.isCancelled
    {
      if stoppable {
        var active := IsActive(judge, tools, state, before);
        if !active {
          break;
        }
      }
      if state.evidence.HasVisitedUrl(results[i].url) {
        continue;
      }
      var ok, _ := ScrapeAndExtractEvidence(judge, tools, state, results[i].url, results[i].title, before);
    }
  }

  // ---- The phases ----

  method ScrapeTargets(judge: Judge, tools: ToolExecutor, state: AgentState, urls: seq<string>, ghost before: seq<Call>)
    requires Keeps(judge, state, tools, before)
    modifies tools, state`isPaused, state`isCancelled, state.tracker, state.evidence
    ensures Keeps(judge, state, tools, before)
    ensures old(state.isCancelled) ==> state.isCancelled
  {
    hide Keeps;
    for i := 0 to |urls|
      invariant Keeps(judge, state, tools, before)
      invariant old(state.isCancelled) ==> state.isCancelled
    {
      var active := IsActive(judge, tools, state, before);
      if !active {
        break;
      }
      if state.evidence.HasVisitedUrl(urls[i]) {
        continue;
      }
      var ok, _ := ScrapeAndExtractEvidence(judge, tools, state, urls[i], None, before);
    }
  }

  method RunQueries(judge: Judge, tools: ToolExecutor, state: AgentState, queries: seq<string>, ghost before: seq<Call>)
    requires Keeps(judge, state, tools, before)
    modifies tools, state`isPaused, state`isCancelled, state.tracker, state.evidence
    ensures Keeps(judge, state, tools, before)
    ensures old(state.isCancelled) ==> state.isCancelled
  {
    hide Keeps;
    for i := 0 to |queries|
      invariant Keeps(judge, state, tools, before)
      invariant old(state.isCancelled) ==> state.isCancelled
    {
      var active := IsActive(judge, tools, state, before);
      if !active {
        break;
      }
      var granted, results := ChargedSearch(judge, tools, state, queries[i], before);
      if !granted {
        break;
      }
      if results.Some? {
        ScrapeResults(judge, tools, state, results.value, 3, true, before);
      }
    }
  }

  method ChargeStep(judge: Judge, tools: ToolExecutor, state: AgentState, ghost before: seq<Call>)
      returns (granted: bool)
    requires Keeps(judge, state, tools, before)
    modifies state.tracker
    ensures Keeps(judge, state, tools, before)
    ensures granted ==> state.tracker.currentSteps <= state.budget.maxSteps
    ensures old(state.tracker.currentSteps) <= state.tracker.currentSteps <= old(state.tracker.currentSteps) + 1
    ensures granted ==> state.tracker.currentSteps == old(state.tracker.currentSteps) + 1
  {
    hide Lawful;
    var now: real := *;
    var charge := state.tracker.RecordStep(state.budget, now);
    granted := charge.Ok?;
  }

  method RunSubgoals(judge: Judge, tools: ToolExecutor, state: AgentState, subgoals: seq<Subgoal>,
      ghost before: seq<Call>)
    requires Keeps(judge, state, tools, before)
    modifies tools, state`isPaused, state`isCancelled, state.tracker, state.evidence
    ensures Keeps(judge, state, tools, before)
    ensures old(state.isCancelled) ==> state.isCancelled
  {
    hide Keeps;
    for i := 0 to |subgoals|
      invariant Keeps(judge, state, tools, before)
      invariant old(state.isCancelled) ==> state.isCancelled
    {
      var active := IsActive(judge, tools, state, before);
      if !active {
        break;
      }
      var granted := ChargeStep(judge, tools, state, before);
      if !granted {
        break;
      }
      ScrapeTargets(judge, tools, state, subgoals[i].targetUrls, before);
      RunQueries(judge, tools, state, subgoals[i].searchQueries, before);
    }
  }

  method RunFollowups(judge: Judge, tools: ToolExecutor, state: AgentState, calls: seq<ToolCall>,
      ghost before: seq<Call>)
    requires Keeps(judge, state, tools, before)
    modifies tools, state`isPaused, state`isCancelled, state.tracker, state.evidence
    ensures Keeps(judge, state, tools, before)
    ensures old(state.isCancelled) ==> state.isCancelled
  {
    hide Keeps;
    for i := 0 to |calls|
      invariant Keeps(judge, state, tools, before)
      invariant old(state.isCancelled) ==> state.isCancelled
    {
      var active := IsActive(judge, tools, state, before);
      if !active {
        break;
      }
      var stepGranted := ChargeStep(judge, tools, state, before);
      if !stepGranted {
        break;
      }
      if calls[i].SearchCall? {
        var granted, results := ChargedSearch(judge, tools, state, calls[i].query, before);
        if !granted {
          break;
        }
        if results.Some? {
          ScrapeResults(judge, tools, state, results.value, 2, false, before);
        }
      }
    }
  }

  method FillGaps(judge: Judge, tools: ToolExecutor, state: AgentState, maxResearchRounds: nat, ghost before: seq<Call>)
    requires Keeps(judge, state, tools, before)
    modifies tools, state`isPaused, state`isCancelled, state.tracker, state.evidence
    ensures Keeps(judge, state, tools, before)
    ensures old(state.isCancelled) ==> state.isCancelled
  {
    hide Keeps;
    var researchRound := 1;
    var active := IsActive(judge, tools, state, before);
    while researchRound <= maxResearchRounds && active
      invariant Keeps(judge, state, tools, before)
      invariant old(state.isCancelled) ==> state.isCancelled
      decreases maxResearchRounds + 1 - researchRound
    {
      var eval: Evaluation := *;
      if eval.isSufficient || eval.followups == [] {
        break;
      }
      RunFollowups(judge, tools, state, eval.followups, before);
      researchRound := researchRound + 1;
      active := IsActive(judge, tools, state, before);
    }
  }

  // ---- The whole run ----

  /** A passage that a call of this run brought in, stored and cited under its URL. */
  ghost predicate Grounded(judge: Judge, items: seq<Item>, calls: seq<Call>, c: Citation) {
    exists e <- items :: c == CitationOf(e, c.supports) && FromCalls(judge, calls, e)
  }

  /** What an answer may claim, given the evidence and the calls made. */
  ghost predicate Supported(judge: Judge, items: seq<Item>, calls: seq<Call>, r: AgentResult)
    requires r.Completed?
  {
    && (forall i, j :: 0 <= i < j < |r.citations| ==> Text.Less(r.citations[i].sourceId, r.citations[j].sourceId))
    && (forall c <- r.citations :: c.url in ScrapesOf(calls) && Grounded(judge, items, calls, c))
    && (forall c <- r.claims, id <- c.evidenceIds :: exists e <- items :: e.id == id)
  }

  /** Whatever text and claims the synthesizer comes up with, validation leaves a supported answer. */
  lemma AnswerSupported(judge: Judge, items: seq<Item>, calls: seq<Call>, text: string, claims: seq<Claim>,
      r: AgentResult)
    requires AllFromCalls(judge, items, calls) && r.Completed?
    requires ListsInOrder(r.citations, FinalCitations(items, text, claims)) && r.claims == CleanedAll(items, claims)
    ensures Supported(judge, items, calls, r)
  {
    var m := FinalCitations(items, text, claims);
    FinalCitationsGrounded(items, text, claims);
    hide FinalCitations, Text.Less, Find, Quotes, ScrapesOf;
    forall c | c in r.citations ensures c.url in ScrapesOf(calls) && Grounded(judge, items, calls, c) {
      var e :| e in items && e.id == c.sourceId && m[c.sourceId] == CitationOf(e, m[c.sourceId].supports);
      assert FromCalls(judge, calls, e);
      ScrapedFrom(judge, calls, e);
    }
    forall c, id | c in r.claims && id in c.evidenceIds ensures exists e <- items :: e.id == id {
      var i :| 0 <= i < |claims| && r.claims[i] == c;
      KnownIdsMeaning(items, claims[i].evidenceIds, id);
      var e := Find(items, id).value;
    }
    hide CleanedAll, KnownIds;
  }

  lemma ScrapedFrom(judge: Judge, calls: seq<Call>, e: Item)
    requires FromCalls(judge, calls, e)
    ensures e.sourceUrl in ScrapesOf(calls)
  {
    var c :| c in calls && Quotes(judge, c, e);
    CallsScraped(calls, c);
  }

  /** The calls made by a run stay within its budget, and none is repeated on a URL. */
  ghost predicate Affordable(b: AgentBudget, calls: seq<Call>) {
    && |ScrapesOf(calls)| <= b.maxPages
    && |SearchesOf(calls)| <= b.maxSearchQueries
    && Distinct(ScrapesOf(calls))
  }

  function TextOf(s: Synthesis): string { if s.markdownAnswer.Some? then s.markdownAnswer.value else "" }

  /** The result carries the synthesizer's text, and what validation makes of the text and the claims. */
  ghost predicate Validated(items: seq<Item>, s: Synthesis, r: AgentResult)
    requires r.Completed?
  {
    && r.markdownAnswer == s.markdownAnswer
    && ListsInOrder(r.citations, FinalCitations(items, TextOf(s), s.claims))
    && r.claims == CleanedAll(items, s.claims)
    && r.warnings == TextWarnings(items, CitedIds(TextOf(s))) + ClaimsWarnings(items, s.claims)
  }

  ghost predicate Cites(citations: seq<Citation>, id: string) { exists c <- citations :: c.sourceId == id }

  /**
   Exactly the known ids that the text or a claim uses are cited, each quoting its item with every use as support; if
   none is used, the best items are cited; and nothing is cited only if nothing is stored.
   */
  ghost predicate CitesWhatIsUsed(items: seq<Item>, text: string, claims: seq<Claim>, citations: seq<Citation>) {
    && (SomethingKnown(items, text, claims) ==> CitesTheUsed(items, text, claims, citations))
    && (!SomethingKnown(items, text, claims) ==> CitesTheBest(items, citations))
    && (citations == [] <==> items == [])
  }

  ghost predicate CitesTheUsed(items: seq<Item>, text: string, claims: seq<Claim>, citations: seq<Citation>) {
    && (forall id :: Cites(citations, id) <==> UsedBy(text, claims, id) && Find(items, id).Some?)
    && (forall c <- citations ::
          && Find(items, c.sourceId).Some?
          && QuotesItem(c, Find(items, c.sourceId).value, SupportsOf(text, claims, c.sourceId)))
  }

  ghost predicate CitesTheBest(items: seq<Item>, citations: seq<Citation>) {
    && (forall id :: Cites(citations, id) <==> exists e <- TopRelevant(items, FALLBACK_ITEMS) :: e.id == id)
    && (forall c <- citations :: exists e <- TopRelevant(items, FALLBACK_ITEMS) ::
          QuotesItem(c, e, ["general_evidence"]))
  }

  lemma ListedOnce(citations: seq<Citation>, m: map<string, Citation>)
    requires ListsInOrder(citations, m) && forall id <- m :: m[id].sourceId == id
    ensures forall id :: Cites(citations, id) <==> id in m
    ensures citations == [] <==> m == map[]
  {
    hide Text.Less;
    forall id ensures Cites(citations, id) <==> id in m {
      if id in m { assert m[id] in citations && m[id].sourceId == id; }
    }
    if citations != [] { assert citations[0] in citations; }
    if m != map[] {
      var id :| id in m;
      assert m[id] in citations;
    }
  }

  lemma ValidatedCites(items: seq<Item>, text: string, claims: seq<Claim>, citations: seq<Citation>)
    requires ListsInOrder(citations, FinalCitations(items, text, claims))
    ensures CitesWhatIsUsed(items, text, claims, citations)
  {
    var m := FinalCitations(items, text, claims);
    FinalCitationsGrounded(items, text, claims);
    GroundedKeys(items, m);
    ListedOnce(citations, m);
    assert forall c <- citations :: c.sourceId in m && m[c.sourceId] == c;
    hide *;
    FinalCitationsMeaning(items, text, claims, "");
    if SomethingKnown(items, text, claims) {
      UsedAreCited(items, text, claims, citations, m);
    } else {
      BestAreCited(items, text, claims, citations, m);
    }
    Assembled(items, text, claims, citations);
  }

  lemma Assembled(items: seq<Item>, text: string, claims: seq<Claim>, citations: seq<Citation>)
    requires SomethingKnown(items, text, claims) ==> CitesTheUsed(items, text, claims, citations)
    requires !SomethingKnown(items, text, claims) ==> CitesTheBest(items, citations)
    requires citations == [] <==> items == []
    ensures CitesWhatIsUsed(items, text, claims, citations)
  {
  }

  lemma UsedAreCited(items: seq<Item>, text: string, claims: seq<Claim>, citations: seq<Citation>,
      m: map<string, Citation>)
    requires m == FinalCitations(items, text, claims) && SomethingKnown(items, text, claims)
    requires forall id :: Cites(citations, id) <==> id in m
    requires forall c <- citations :: c.sourceId in m && m[c.sourceId] == c
    ensures CitesTheUsed(items, text, claims, citations)
  {
    hide FinalCitations, SomethingKnown, Cites, UsedBy, Find, QuotesItem, SupportsOf;
    forall id ensures Cites(citations, id) <==> UsedBy(text, claims, id) && Find(items, id).Some? {
      FinalCitationsMeaning(items, text, claims, id);
    }
    forall c | c in citations
      ensures Find(items, c.sourceId).Some?
      ensures QuotesItem(c, Find(items, c.sourceId).value, SupportsOf(text, claims, c.sourceId))
    {
      FinalCitationsMeaning(items, text, claims, c.sourceId);
    }
  }

  lemma BestAreCited(items: seq<Item>, text: string, claims: seq<Claim>, citations: seq<Citation>,
      m: map<string, Citation>)
    requires m == FinalCitations(items, text, claims) && !SomethingKnown(items, text, claims)
    requires forall id :: Cites(citations, id) <==> id in m
    requires forall c <- citations :: c.sourceId in m && m[c.sourceId] == c
    ensures CitesTheBest(items, citations)
  {
    var top := TopRelevant(items, FALLBACK_ITEMS);
    hide FinalCitations, SomethingKnown, Cites, QuotesItem, TopRelevant;
    forall id ensures Cites(citations, id) <==> exists e <- top :: e.id == id {
      FinalCitationsMeaning(items, text, claims, id);
    }
    forall c | c in citations ensures exists e <- top :: QuotesItem(c, e, ["general_evidence"]) {
      FinalCitationsMeaning(items, text, claims, c.sourceId);
    }
  }

  /** Asks for a synthesis and validates it. */
  method Synthesized(judge: Judge, tools: ToolExecutor, synthesizer: ResearchSynthesizer, state: AgentState,
      ghost before: seq<Call>) returns (r: AgentResult, ghost s: Synthesis)
    requires Keeps(judge, state, tools, before)
    modifies synthesizer
    ensures synthesizer.answers == old(synthesizer.answers) + [s]
    ensures r.Completed? && Validated(state.evidence.items, s, r)
    ensures Supported(judge, state.evidence.items, tools.calls[|before|..], r)
    ensures CitesWhatIsUsed(state.evidence.items, TextOf(s), s.claims, r.citations)
    ensures Keeps(judge, state, tools, before)
  {
    hide Lawful, Supported, FinalCitations, ListsInOrder, CleanedAll, CitesWhatIsUsed;
    hide CitedIds, TextWarnings, ClaimsWarnings;
    ghost var items, calls := state.evidence.items, tools.calls[|before|..];
    LawfulCounts(judge, state.budget, Now(state, tools, before));
    var synthesis := synthesizer.Synthesize();
    s := synthesis;
    var claims := new Claim[|synthesis.claims|](i requires 0 <= i < |synthesis.claims| => synthesis.claims[i]);
    assert claims[..] == synthesis.claims;
    var text := TextOf(synthesis);
    var citations, warnings := ValidateAndBuildCitations(text, claims, state.evidence);
    r := Completed(synthesis.markdownAnswer, citations, claims[..], warnings);
    hide AllFromCalls;
    AnswerSupported(judge, items, calls, text, synthesis.claims, r);
    ValidatedCites(items, text, synthesis.claims, citations);
  }

  lemma FreshKeeps(judge: Judge, state: AgentState, tools: ToolExecutor)
    requires state.IsNew()
    ensures Keeps(judge, state, tools, tools.calls)
  {
    assert Now(state, tools, tools.calls) == Ledger(0, 0, [], {}, 1, {}, []);
    StartLawful(judge, state.budget);
    hide Lawful;
  }

  lemma KeepsAffordable(judge: Judge, state: AgentState, tools: ToolExecutor, before: seq<Call>)
    requires Keeps(judge, state, tools, before)
    ensures before <= tools.calls && Affordable(state.budget, tools.calls[|before|..])
  {
    LawfulCounts(judge, state.budget, Now(state, tools, before));
    hide Lawful, Affordable;
  }

  /**
   Runs a job. Whatever the plan, the tools' answers, the evaluations, the synthesis, and the moments at which the
   job is paused, resumed or cancelled: the calls it makes are within the budget, no URL is scraped twice, the
   answer quotes only what those calls returned, and it is the synthesizer's answer as validation leaves it.
   */
  method RunJob(config: AgentConfig, judge: Judge, tools: ToolExecutor, synthesizer: ResearchSynthesizer,
      state: AgentState, plan: Option<Plan>) returns (r: AgentResult)
    requires state.IsNew()
    modifies tools, synthesizer, state`isPaused, state`isCancelled, state.tracker, state.evidence
    ensures Keeps(judge, state, tools, old(tools.calls))
    ensures Affordable(state.budget, tools.calls[|old(tools.calls)|..])
    ensures r.Failed? <==> plan.None?
    ensures r.Cancelled? <==> plan.Some? && state.isCancelled
    ensures old(state.isCancelled) ==> state.isCancelled
    ensures r.Failed? ==> tools.calls == old(tools.calls)
    ensures !r.Completed? ==> synthesizer.answers == old(synthesizer.answers)
    ensures r.Completed? ==> Supported(judge, state.evidence.items, tools.calls[|old(tools.calls)|..], r)
    ensures r.Completed? ==>
      exists s :: synthesizer.answers == old(synthesizer.answers) + [s]
               && Validated(state.evidence.items, s, r)
               && CitesWhatIsUsed(state.evidence.items, TextOf(s), s.claims, r.citations)
  {
    hide Keeps, Affordable, Supported, Validated, CitesWhatIsUsed;
    ghost var before := tools.calls;
    FreshKeeps(judge, state, tools);
    KeepsAffordable(judge, state, tools, before);
    if plan.None? {
      return Failed;
    }
    RunSubgoals(judge, tools, state, plan.value.subgoals, before);
    FillGaps(judge, tools, state, config.maxResearchRounds, before);
    var _ := IsActive(judge, tools, state, before);
    KeepsAffordable(judge, state, tools, before);
    if state.isCancelled {
      return Cancelled;
    }
    ghost var s;
    r, s := Synthesized(judge, tools, synthesizer, state, before);
  }

  /**
   Submits a job with a request's limits and waits for it: the calls are within what request and deployment allow, and
   a completed answer is one of the synthesizer, cited from some evidence that those calls brought in.
   */
  method SubmitAndWait(config: AgentConfig, limits: Option<AgentLimits>, now: real, judge: Judge,
      tools: ToolExecutor, synthesizer: ResearchSynthesizer, plan: Option<Plan>) returns (r: AgentResult)
    modifies tools, synthesizer
    ensures old(tools.calls) <= tools.calls
    ensures Affordable(BudgetFor(config, limits, now), tools.calls[|old(tools.calls)|..])
    ensures r.Completed? ==>
      exists items, s ::
        && synthesizer.answers == old(synthesizer.answers) + [s]
        && Supported(judge, items, tools.calls[|old(tools.calls)|..], r)
        && Validated(items, s, r)
        && CitesWhatIsUsed(items, TextOf(s), s.claims, r.citations)
  {
    var state := new AgentState(BudgetFor(config, limits, now));
    hide Supported, Validated, CitesWhatIsUsed, Affordable, Keeps;
    assert old(tools.calls) <= tools.calls;
    r := RunJob(config, judge, tools, synthesizer, state, plan);
    KeepsAffordable(judge, state, tools, old(tools.calls));
  }

  lemma LawfulCounts(judge: Judge, b: AgentBudget, l: Ledger)
    requires Lawful(judge, b, l)
    ensures Affordable(b, l.calls) && AllFromCalls(judge, l.items, l.calls)
  {
    hide Consistent, Distinct, AllFromCalls, ScrapesOf, SearchesOf;
  }

  /** In a lawful run no two items share an id or a content hash, and no URL is scraped twice. */
  lemma LawfulMeansDistinct(judge: Judge, b: AgentBudget, l: Ledger, i: nat, j: nat)
    requires Lawful(judge, b, l) && i < j
    ensures j < |l.items| ==> l.items[i].id != l.items[j].id && l.items[i].contentHash != l.items[j].contentHash
    ensures j < |ScrapesOf(l.calls)| ==> ScrapesOf(l.calls)[i] != ScrapesOf(l.calls)[j]
  {
    hide ScrapesOf, SearchesOf;
    if j < |l.items| && l.items[i].id == l.items[j].id {
      IdsDistinct(l.items, i, j);
    }
  }
}
