/** Comparing a crawl with an earlier one: every page and every missing page is classified exactly once. */
module Incremental {
  import opened Prelude
  import Text

  datatype Page = Page(
    url: string,
    finalUrl: string,
    status: nat,
    contentHash: Option<string>,
    text: Option<string>,
    markdown: Option<string>)

  datatype PageSnapshot = PageSnapshot(
    url: string, finalUrl: string, contentHash: Option<string>, normalizedHash: Option<string>, status: nat)

  datatype Snapshot = Snapshot(id: string, pages: map<string, PageSnapshot>)

  datatype ChangeSummary = ChangeSummary(
    added: seq<string>,
    changed: seq<string>,
    deleted: seq<string>,
    unchangedCount: nat,
    unknownCount: nat,
    redirectedCount: nat)

  datatype Verdict = IsNew | IsChanged | IsRedirected | IsDeleted | IsUnchanged | IsUnknown

  datatype Failure = InvalidBaseline | SnapshotNotFound | CrawlFailed

  datatype Request = Request(
    baselineSnapshotId: Option<string>, baselineJobId: Option<string>, includeChangedContent: bool)

  datatype CrawlResult = CrawlResult(jobId: string, pages: seq<Page>)

  datatype Response = Response(
    snapshotId: string, baselineId: string, changes: ChangeSummary, changedPages: Option<seq<Page>>)

  type Hash = string -> string

  // ---- The layout of a text does not count ----

  /** The text that is hashed. */
  function NormalText(text: string): string { Text.Join(Text.NonBlank(Text.Lines(text)), "\n") }

  lemma {:induction false} NonBlankTwice(lines: seq<string>)
    requires forall line <- lines :: line != "" && Text.Trim(line) == line
    ensures Text.NonBlank(lines) == lines
  {
    hide Text.Trim;
    if lines != [] {
      assert lines[0] in lines && forall line <- lines[1..] :: line in lines;
      NonBlankTwice(lines[1..]);
    }
  }

  /** Reading joined lines gives the lines back. */
  lemma {:induction false} LinesOfJoin(lines: seq<string>)
    requires forall line <- lines :: line != "" && Text.Trim(line) == line && '\n' !in line
    ensures Text.Lines(Text.Join(lines, "\n")) == lines
  {
    hide Text.Trim, Text.Lines;
    if lines == [] {
      Text.LinesLast("");
    } else {
      assert lines[0] in lines && forall line <- lines[1..] :: line in lines;
      if |lines| == 1 {
        Text.LinesLast(lines[0]);
      } else {
        LinesOfJoin(lines[1..]);
        Text.LinesNext(lines[0], Text.Join(lines[1..], "\n"));
        assert !Text.EndsWith(lines[0], "\r") by { Text.NoReturn(lines[0]); }
      }
    }
  }

  /** Two texts are hashed alike exactly when their lines agree, blank lines and whitespace around lines aside. */
  lemma NormalTextMeaning(a: string, b: string)
    ensures NormalText(a) == NormalText(b) <==> Text.NonBlank(Text.Lines(a)) == Text.NonBlank(Text.Lines(b))
    ensures NormalText(NormalText(a)) == NormalText(a)
  {
    var x, y := Text.Lines(a), Text.Lines(b);
    Text.LinesAreLines(a);
    Text.LinesAreLines(b);
    Text.NonBlankLines(x);
    Text.NonBlankLines(y);
    LinesOfJoin(Text.NonBlank(x));
    LinesOfJoin(Text.NonBlank(y));
    NonBlankTwice(Text.NonBlank(x));
    hide Text.NonBlank, Text.Lines, Text.Join, Text.Trim;
  }

  function NormalizedHash(hash: Hash, p: Page): Option<string> {
    if p.text.Some? then Some(hash(NormalText(p.text.value)))
    else if p.markdown.Some? then Some(hash(NormalText(p.markdown.value)))
    else None
  }

  function SnapshotOfPage(hash: Hash, p: Page): PageSnapshot {
    PageSnapshot(p.url, p.finalUrl, p.contentHash, NormalizedHash(hash, p), p.status)
  }

  predicate SameContent(hash: Hash, p: Page, b: PageSnapshot) {
    || (NormalizedHash(hash, p).Some? && NormalizedHash(hash, p) == b.normalizedHash)
    || (p.contentHash.Some? && p.contentHash == b.contentHash)
  }

  /** What is to be said about a crawled page. */
  function Classify(hash: Hash, baseline: map<string, PageSnapshot>, p: Page): Verdict {
    if p.url !in baseline then IsNew
    else if p.status == 404 || p.status == 410 then IsDeleted
    else if p.status >= 400 then IsUnknown
    else if p.status == 304 then IsUnchanged
    else if p.finalUrl != baseline[p.url].finalUrl then IsRedirected
    else if SameContent(hash, p, baseline[p.url]) then IsUnchanged
    else IsChanged
  }

  // ---- The lists, as selections from the crawl ----

  /** The pages with one of the verdicts, in crawl order. */
  function Select(hash: Hash, baseline: map<string, PageSnapshot>, pages: seq<Page>,
      verdicts: set<Verdict>): seq<Page>
  {
    if pages == [] then []
    else
      var p := pages[|pages| - 1];
      Select(hash, baseline, pages[..|pages| - 1], verdicts)
      + if Classify(hash, baseline, p) in verdicts then [p] else []
  }

  function UrlsOf(pages: seq<Page>): seq<string> { seq(|pages|, i requires 0 <= i < |pages| => pages[i].url) }

  lemma UrlsOfAppend(pages: seq<Page>, p: Page)
    ensures UrlsOf(pages + [p]) == UrlsOf(pages) + [p.url]
    ensures UrlsOf(pages + []) == UrlsOf(pages)
  {
    assert pages + [] == pages;
  }

  /** The comparison with the baseline, before the missing pages are added. */
  function Compared(hash: Hash, baseline: map<string, PageSnapshot>, pages: seq<Page>): ChangeSummary {
    ChangeSummary(
      UrlsOf(Select(hash, baseline, pages, {IsNew})),
      UrlsOf(Select(hash, baseline, pages, {IsChanged, IsRedirected})),
      UrlsOf(Select(hash, baseline, pages, {IsDeleted})),
      |Select(hash, baseline, pages, {IsUnchanged})|,
      |Select(hash, baseline, pages, {IsUnknown})|,
      |Select(hash, baseline, pages, {IsRedirected})|)
  }

  /** One more page changes the one entry that its verdict names. */
  function Counted(c: ChangeSummary, v: Verdict, url: string): ChangeSummary {
    match v
    case IsNew => c.(added := c.added + [url])
    case IsChanged => c.(changed := c.changed + [url])
    case IsRedirected => c.(changed := c.changed + [url], redirectedCount := c.redirectedCount + 1)
    case IsDeleted => c.(deleted := c.deleted + [url])
    case IsUnchanged => c.(unchangedCount := c.unchangedCount + 1)
    case IsUnknown => c.(unknownCount := c.unknownCount + 1)
  }

  lemma SelectNext(hash: Hash, baseline: map<string, PageSnapshot>, pages: seq<Page>, i: nat, verdicts: set<Verdict>)
    requires i < |pages|
    ensures var s := Select(hash, baseline, pages[..i], verdicts);
      && Select(hash, baseline, pages[..i + 1], verdicts)
         == (if Classify(hash, baseline, pages[i]) in verdicts then s + [pages[i]] else s)
      && UrlsOf(Select(hash, baseline, pages[..i + 1], verdicts))
         == (if Classify(hash, baseline, pages[i]) in verdicts then UrlsOf(s) + [pages[i].url] else UrlsOf(s))
  {
    assert pages[..i + 1][..i] == pages[..i];
    hide Classify;
    UrlsOfAppend(Select(hash, baseline, pages[..i], verdicts), pages[i]);
  }

  lemma ComparedNext(hash: Hash, baseline: map<string, PageSnapshot>, pages: seq<Page>, i: nat)
    requires i < |pages|
    ensures Compared(hash, baseline, pages[..i + 1])
         == Counted(Compared(hash, baseline, pages[..i]), Classify(hash, baseline, pages[i]), pages[i].url)
  {
    hide Select, UrlsOf, Classify;
    SelectNext(hash, baseline, pages, i, {IsNew});
    SelectNext(hash, baseline, pages, i, {IsChanged, IsRedirected});
    SelectNext(hash, baseline, pages, i, {IsDeleted});
    SelectNext(hash, baseline, pages, i, {IsUnchanged});
    SelectNext(hash, baseline, pages, i, {IsUnknown});
    SelectNext(hash, baseline, pages, i, {IsRedirected});
  }

  // ---- The classification as it runs ----

  /** Adds one page that the baseline knows to the summary. */
  method CompareWithBaseline(hash: Hash, baseline: map<string, PageSnapshot>, page: Page, changes: ChangeSummary,
      changedPages: seq<Page>)
      returns (changes': ChangeSummary, changedPages': seq<Page>)
    ensures changes' == Counted(changes, Classify(hash, baseline, page), page.url)
    ensures changedPages'
         == if Classify(hash, baseline, page) in {IsNew, IsChanged, IsRedirected} then changedPages + [page]
            else changedPages
  {
    changes', changedPages' := changes, changedPages;
    if page.url in baseline {
      var baselinePage := baseline[page.url];
      if page.status == 304 {
        changes' := changes'.(unchangedCount := changes'.unchangedCount + 1);
      } else if 400 <= page.status < 500 {
        if page.status == 404 || page.status == 410 {
          changes' := changes'.(deleted := changes'.deleted + [page.url]);
        } else {
          changes' := changes'.(unknownCount := changes'.unknownCount + 1);
        }
      } else if page.status >= 500 {
        changes' := changes'.(unknownCount := changes'.unknownCount + 1);
      } else if page.finalUrl != baselinePage.finalUrl {
        changes' := changes'.(
          redirectedCount := changes'.redirectedCount + 1, changed := changes'.changed + [page.url]);
        changedPages' := changedPages' + [page];
      } else if SameContent(hash, page, baselinePage) {
        changes' := changes'.(unchangedCount := changes'.unchangedCount + 1);
      } else {
        changes' := changes'.(changed := changes'.changed + [page.url]);
        changedPages' := changedPages' + [page];
      }
    } else {
      changes' := changes'.(added := changes'.added + [page.url]);
      changedPages' := changedPages' + [page];
    }
  }

  /** The last page crawled under a URL is the one the snapshot keeps. */
  function SnapshotOf(hash: Hash, pages: seq<Page>): map<string, PageSnapshot> {
    if pages == [] then map[]
    else
      var p := pages[|pages| - 1];
      SnapshotOf(hash, pages[..|pages| - 1])[p.url := SnapshotOfPage(hash, p)]
  }

  lemma {:induction false} SnapshotKeys(hash: Hash, pages: seq<Page>)
    ensures forall u :: u in SnapshotOf(hash, pages) <==> exists p <- pages :: p.url == u
    ensures forall i :: 0 <= i < |pages| && (forall j :: i < j < |pages| ==> pages[j].url != pages[i].url) ==>
      SnapshotOf(hash, pages)[pages[i].url] == SnapshotOfPage(hash, pages[i])
  {
    if pages != [] {
      var init, last := pages[..|pages| - 1], pages[|pages| - 1];
      SnapshotKeys(hash, init);
      hide SnapshotOfPage;
      assert pages == init + [last];
      forall i | 0 <= i < |pages| && (forall j :: i < j < |pages| ==> pages[j].url != pages[i].url)
        ensures SnapshotOf(hash, pages)[pages[i].url] == SnapshotOfPage(hash, pages[i])
      {
        if i < |init| { assert init[i] == pages[i]; }
      }
    }
  }

  /** The four results of walking over some pages. */
  ghost predicate Walked(hash: Hash, baseline: map<string, PageSnapshot>, pages: seq<Page>,
      changes: ChangeSummary, changedPages: seq<Page>, snapshot: map<string, PageSnapshot>, crawled: set<string>)
  {
    && changes == Compared(hash, baseline, pages)
    && changedPages == Select(hash, baseline, pages, {IsNew, IsChanged, IsRedirected})
    && snapshot == SnapshotOf(hash, pages)
    && (forall u :: u in crawled <==> u in UrlsOf(pages))
  }

  lemma WalkedNext(hash: Hash, baseline: map<string, PageSnapshot>, pages: seq<Page>, i: nat,
      changes: ChangeSummary, changedPages: seq<Page>, snapshot: map<string, PageSnapshot>, crawled: set<string>)
    requires i < |pages| && Walked(hash, baseline, pages[..i], changes, changedPages, snapshot, crawled)
    ensures var p, v := pages[i], Classify(hash, baseline, pages[i]);
      Walked(hash, baseline, pages[..i + 1],
        Counted(changes, v, p.url),
        if v in {IsNew, IsChanged, IsRedirected} then changedPages + [p] else changedPages,
        snapshot[p.url := SnapshotOfPage(hash, p)],
        crawled + {p.url})
  {
    assert pages[..i + 1][..i] == pages[..i];
    assert pages[..i + 1] == pages[..i] + [pages[i]];
    ComparedNext(hash, baseline, pages, i);
    SelectNext(hash, baseline, pages, i, {IsNew, IsChanged, IsRedirected});
    UrlsOfAppend(pages[..i], pages[i]);
    hide Compared, Classify, Select, UrlsOf, SnapshotOfPage, Counted;
  }

  /** Walks over the crawled pages. */
  method ComparePages(hash: Hash, baseline: map<string, PageSnapshot>, pages: seq<Page>)
      returns (
        changes: ChangeSummary, changedPages: seq<Page>, snapshot: map<string, PageSnapshot>, crawled: set<string>)
    ensures Walked(hash, baseline, pages, changes, changedPages, snapshot, crawled)
  {
    changes, changedPages, snapshot, crawled := ChangeSummary([], [], [], 0, 0, 0), [], map[], {};
    NothingCompared(hash, baseline);
    hide Classify, SnapshotOfPage, Counted;
    assert Walked(hash, baseline, [], changes, changedPages, snapshot, crawled) by { hide Compared, Select, UrlsOf; }
    hide Walked;
    for i := 0 to |pages|
      invariant Walked(hash, baseline, pages[..i], changes, changedPages, snapshot, crawled)
    {
      WalkedNext(hash, baseline, pages, i, changes, changedPages, snapshot, crawled);
      crawled := crawled + {pages[i].url};
      snapshot := snapshot[pages[i].url := SnapshotOfPage(hash, pages[i])];
      changes, changedPages := CompareWithBaseline(hash, baseline, pages[i], changes, changedPages);
    }
    assert pages[..|pages|] == pages;
  }

  lemma NothingCompared(hash: Hash, baseline: map<string, PageSnapshot>)
    ensures Compared(hash, baseline, []) == ChangeSummary([], [], [], 0, 0, 0)
    ensures forall verdicts :: Select(hash, baseline, [], verdicts) == []
    ensures UrlsOf([]) == []
  {
  }

  /** Lists each baseline URL that was not crawled, once, in the arbitrary order of the map. */
  method MissingPages(baseline: map<string, PageSnapshot>, crawled: set<string>) returns (missing: seq<string>)
    ensures Distinct(missing) && |missing| == |baseline.Keys - crawled|
    ensures forall u :: u in missing <==> u in baseline && u !in crawled
  {
    missing := [];
    var left := baseline.Keys;
    while left != {}
      invariant left <= baseline.Keys
      invariant Distinct(missing)
      invariant forall u :: u in missing <==> u in baseline && u !in left && u !in crawled
      invariant |missing| + |left - crawled| == |baseline.Keys - crawled|
      decreases left
    {
      var u :| u in left;
      if u !in crawled {
        assert left - crawled == (left - {u} - crawled) + {u};
        missing := missing + [u];
      } else {
        assert left - crawled == left - {u} - crawled;
      }
      left := left - {u};
    }
  }

  /** The snapshots kept, by their own id or by the id of the job that made them. */
  class SnapshotStore {
    var snapshots: map<string, Snapshot>
    var jobs: map<string, string>

    constructor ()
      ensures snapshots == map[] && jobs == map[]
    {
      snapshots, jobs := map[], map[];
    }

    function GetSnapshot(id: string): Option<Snapshot>
      reads this
    {
      if id in snapshots then Some(snapshots[id])
      else if id in jobs && jobs[id] in snapshots then Some(snapshots[jobs[id]])
      else None
    }

    method SaveSnapshot(s: Snapshot)
      modifies `snapshots
      ensures snapshots == old(snapshots)[s.id := s]
    {
      snapshots := snapshots[s.id := s];
    }

    method LinkJob(job: string, id: string)
      modifies `jobs
      ensures jobs == old(jobs)[job := id]
    {
      jobs := jobs[job := id];
    }
  }

  function BaselineKey(r: Request): Option<string> {
    if r.baselineSnapshotId.Some? then r.baselineSnapshotId else r.baselineJobId
  }

  /** What the answer says about a crawl and a baseline. */
  ghost predicate Answers(hash: Hash, baseline: map<string, PageSnapshot>, pages: seq<Page>, request: Request,
      response: Response)
  {
    var compared, changes := Compared(hash, baseline, pages), response.changes;
    && changes.added == compared.added
    && changes.changed == compared.changed
    && changes.unchangedCount == compared.unchangedCount
    && changes.unknownCount == compared.unknownCount
    && changes.redirectedCount == compared.redirectedCount
    && |compared.deleted| <= |changes.deleted|
    && changes.deleted[..|compared.deleted|] == compared.deleted
    && ListsOnce(changes.deleted[|compared.deleted|..], baseline.Keys - UrlSet(pages))
    && response.changedPages
       == if request.includeChangedContent then Some(Select(hash, baseline, pages, {IsNew, IsChanged, IsRedirected}))
          else None
  }

  function UrlSet(pages: seq<Page>): set<string> { set p <- pages :: p.url }

  ghost predicate ListsOnce(xs: seq<string>, urls: set<string>) {
    Distinct(xs) && |xs| == |urls| && forall u :: u in xs <==> u in urls
  }

  lemma CrawledUrls(pages: seq<Page>)
    ensures forall u :: u in UrlSet(pages) <==> u in UrlsOf(pages)
  {
    forall u ensures u in UrlSet(pages) <==> u in UrlsOf(pages) {
      if u in UrlSet(pages) {
        var i :| 0 <= i < |pages| && pages[i].url == u;
        assert UrlsOf(pages)[i] == u;
      }
      if u in UrlsOf(pages) {
        var i :| 0 <= i < |pages| && UrlsOf(pages)[i] == u;
        assert pages[i] in pages;
      }
    }
  }

  lemma MissingListed(hash: Hash, baseline: map<string, PageSnapshot>, pages: seq<Page>,
      changes: ChangeSummary, changedPages: seq<Page>, snapshot: map<string, PageSnapshot>, crawled: set<string>,
      missing: seq<string>)
    requires Walked(hash, baseline, pages, changes, changedPages, snapshot, crawled)
    requires Distinct(missing) && |missing| == |baseline.Keys - crawled|
    requires forall u :: u in missing <==> u in baseline && u !in crawled
    ensures ListsOnce(missing, baseline.Keys - UrlSet(pages))
  {
    CrawledUrls(pages);
    assert crawled == UrlSet(pages) by { hide Compared, Select, Distinct, SnapshotOf, UrlsOf, UrlSet; }
    hide Compared, Select, Distinct, UrlsOf, UrlSet, SnapshotOf, Walked;
  }

  lemma Answered(hash: Hash, baseline: map<string, PageSnapshot>, pages: seq<Page>, request: Request,
      changes: ChangeSummary, changedPages: seq<Page>, snapshot: map<string, PageSnapshot>, crawled: set<string>,
      missing: seq<string>, response: Response)
    requires Walked(hash, baseline, pages, changes, changedPages, snapshot, crawled)
    requires ListsOnce(missing, baseline.Keys - UrlSet(pages))
    requires response.changes == changes.(deleted := changes.deleted + missing)
    requires response.changedPages == if request.includeChangedContent then Some(changedPages) else None
    ensures Answers(hash, baseline, pages, request, response)
    ensures snapshot == SnapshotOf(hash, pages)
  {
    hide Compared, Select, UrlsOf, UrlSet, SnapshotOf, ListsOnce;
    assert (changes.deleted + missing)[|changes.deleted|..] == missing;
    assert (changes.deleted + missing)[..|changes.deleted|] == changes.deleted;
  }

  /** Compares a finished crawl with the named baseline, and keeps the crawl as a new snapshot. */
  method ExecuteIncrementalCrawl(store: SnapshotStore, request: Request, crawl: Option<CrawlResult>, newId: string,
      hash: Hash)
      returns (r: Result<Response, Failure>)
    modifies store
    ensures r == Err(InvalidBaseline) <==> request.baselineSnapshotId.None? && request.baselineJobId.None?
    ensures r == Err(SnapshotNotFound)
       <==> BaselineKey(request).Some? && old(store.GetSnapshot(BaselineKey(request).value)).None?
    ensures r.Err? ==> store.snapshots == old(store.snapshots) && store.jobs == old(store.jobs)
    ensures r.Ok?
       <==> BaselineKey(request).Some? && old(store.GetSnapshot(BaselineKey(request).value)).Some? && crawl.Some?
    ensures r.Ok? ==>
      && r.value.snapshotId == newId
      && r.value.baselineId == BaselineKey(request).value
      && Some(r.value.baselineId) in {request.baselineSnapshotId, request.baselineJobId}
      && (request.baselineSnapshotId.Some? ==> Some(r.value.baselineId) == request.baselineSnapshotId)
      && Answers(
           hash, old(store.GetSnapshot(BaselineKey(request).value)).value.pages, crawl.value.pages, request, r.value)
      && store.snapshots == old(store.snapshots)[newId := Snapshot(newId, SnapshotOf(hash, crawl.value.pages))]
      && store.jobs == old(store.jobs)[crawl.value.jobId := newId]
    ensures r.Ok? ==>
      && store.GetSnapshot(newId) == Some(Snapshot(newId, SnapshotOf(hash, crawl.value.pages)))
      && (crawl.value.jobId !in store.snapshots ==>
            store.GetSnapshot(crawl.value.jobId) == store.GetSnapshot(newId))
  {
    hide Walked, Answers, SnapshotOf;
    var key := BaselineKey(request);
    if key.None? {
      return Err(InvalidBaseline);
    }
    var baseline := store.GetSnapshot(key.value);
    if baseline.None? {
      return Err(SnapshotNotFound);
    }
    if crawl.None? {
      return Err(CrawlFailed);
    }
    var pages := crawl.value.pages;
    var changes, changedPages, snapshot, crawled := ComparePages(hash, baseline.value.pages, pages);
    var missing := MissingPages(baseline.value.pages, crawled);
    var response := Response(newId, key.value, changes.(deleted := changes.deleted + missing),
                             if request.includeChangedContent then Some(changedPages) else None);
    MissingListed(hash, baseline.value.pages, pages, changes, changedPages, snapshot, crawled, missing);
    Answered(hash, baseline.value.pages, pages, request, changes, changedPages, snapshot, crawled, missing, response);
    store.SaveSnapshot(Snapshot(newId, snapshot));
    store.LinkJob(crawl.value.jobId, newId);
    r := Ok(response);
  }

  // ---- What the answer means ----

  /** What is kept of a page: its text is hashed if there is one, its markdown if there is only that. */
  ghost predicate KeptAs(hash: Hash, p: Page, s: PageSnapshot) {
    && s.url == p.url && s.finalUrl == p.finalUrl && s.status == p.status && s.contentHash == p.contentHash
    && (p.text.Some? ==> s.normalizedHash == Some(hash(NormalText(p.text.value))))
    && (p.text.None? && p.markdown.Some? ==> s.normalizedHash == Some(hash(NormalText(p.markdown.value))))
    && (p.text.None? && p.markdown.None? ==> s.normalizedHash.None?)
  }

  /** The page and the earlier one have a content hash in common, or a hash of their text. */
  ghost predicate SharesHash(hash: Hash, p: Page, b: PageSnapshot) {
    || (p.contentHash.Some? && b.contentHash == p.contentHash)
    || (p.text.Some? && b.normalizedHash == Some(hash(NormalText(p.text.value))))
    || (p.text.None? && p.markdown.Some? && b.normalizedHash == Some(hash(NormalText(p.markdown.value))))
  }

  /** The snapshot holds one entry for each URL crawled, made from the last page crawled under it. */
  lemma SnapshotMeaning(hash: Hash, pages: seq<Page>)
    ensures SnapshotOf(hash, pages).Keys == UrlSet(pages)
    ensures forall i :: 0 <= i < |pages| && (forall j :: i < j < |pages| ==> pages[j].url != pages[i].url) ==>
      KeptAs(hash, pages[i], SnapshotOf(hash, pages)[pages[i].url])
  {
    SnapshotKeys(hash, pages);
  }

  /** Each verdict, in terms of the page and the baseline. */
  lemma ClassifyMeaning(hash: Hash, baseline: map<string, PageSnapshot>, p: Page)
    ensures var v := Classify(hash, baseline, p);
      && (v == IsNew <==> p.url !in baseline)
      && (v == IsDeleted <==> p.url in baseline && p.status in {404, 410})
      && (v == IsUnknown <==> p.url in baseline && p.status >= 400 && p.status !in {404, 410})
      && (v == IsRedirected <==>
            p.url in baseline && p.status < 400 && p.status != 304 && p.finalUrl != baseline[p.url].finalUrl)
      && (v == IsUnchanged <==>
            p.url in baseline && p.status < 400
            && (p.status == 304 || (p.finalUrl == baseline[p.url].finalUrl && SharesHash(hash, p, baseline[p.url]))))
  {
  }

  function Chosen(hash: Hash, baseline: map<string, PageSnapshot>, verdicts: set<Verdict>): Page -> int {
    (p: Page) => if Classify(hash, baseline, p) in verdicts then 1 else 0
  }

  lemma {:induction false} SelectCount(hash: Hash, baseline: map<string, PageSnapshot>, pages: seq<Page>,
      verdicts: set<Verdict>)
    ensures |Select(hash, baseline, pages, verdicts)| == Sum(pages, Chosen(hash, baseline, verdicts))
  {
    hide Classify;
    if pages != [] { SelectCount(hash, baseline, pages[..|pages| - 1], verdicts); }
  }

  /** The pages chosen keep their order: each stands behind as many as were chosen before it. */
  lemma {:induction false} SelectInOrder(hash: Hash, baseline: map<string, PageSnapshot>, pages: seq<Page>,
      verdicts: set<Verdict>, i: nat)
    requires i < |pages| && Classify(hash, baseline, pages[i]) in verdicts
    ensures var s, k := Select(hash, baseline, pages, verdicts), Sum(pages[..i], Chosen(hash, baseline, verdicts));
      0 <= k < |s| && s[k] == pages[i] && UrlsOf(s)[k] == pages[i].url
  {
    hide Classify, Sum;
    var init := pages[..|pages| - 1];
    if i < |init| {
      SelectInOrder(hash, baseline, init, verdicts, i);
      assert init[..i] == pages[..i];
    } else {
      SelectCount(hash, baseline, init, verdicts);
      assert pages[..i] == init;
    }
  }

  lemma {:induction false} SelectPartition(hash: Hash, baseline: map<string, PageSnapshot>, pages: seq<Page>)
    ensures |Select(hash, baseline, pages, {IsNew})| + |Select(hash, baseline, pages, {IsChanged, IsRedirected})|
          + |Select(hash, baseline, pages, {IsDeleted})| + |Select(hash, baseline, pages, {IsUnchanged})|
          + |Select(hash, baseline, pages, {IsUnknown})| == |pages|
    ensures |Select(hash, baseline, pages, {IsRedirected})|
         <= |Select(hash, baseline, pages, {IsChanged, IsRedirected})|
    ensures |Select(hash, baseline, pages, {IsNew, IsChanged, IsRedirected})|
         == |Select(hash, baseline, pages, {IsNew})| + |Select(hash, baseline, pages, {IsChanged, IsRedirected})|
  {
    if pages != [] {
      hide Classify;
      SelectPartition(hash, baseline, pages[..|pages| - 1]);
    }
  }

  /** Every crawled page and every baseline page that was not crawled is reported exactly once. */
  lemma PagesConserved(hash: Hash, baseline: map<string, PageSnapshot>, pages: seq<Page>, request: Request,
      response: Response)
    requires Answers(hash, baseline, pages, request, response)
    ensures var c := response.changes;
      && |c.added| + |c.changed| + |c.deleted| + c.unchangedCount + c.unknownCount
         == |pages| + |baseline.Keys - UrlSet(pages)|
      && c.redirectedCount <= |c.changed|
      && (request.includeChangedContent ==>
            response.changedPages.Some? && |response.changedPages.value| == |c.added| + |c.changed|)
  {
    SelectPartition(hash, baseline, pages);
    hide Select, UrlSet, Distinct;
  }

  lemma {:induction false} SelectMembers(hash: Hash, baseline: map<string, PageSnapshot>, pages: seq<Page>,
      verdicts: set<Verdict>)
    ensures forall p :: p in Select(hash, baseline, pages, verdicts)
                   <==> p in pages && Classify(hash, baseline, p) in verdicts
  {
    if pages != [] {
      hide Classify;
      SelectMembers(hash, baseline, pages[..|pages| - 1], verdicts);
      assert pages == pages[..|pages| - 1] + [pages[|pages| - 1]];
    }
  }

  ghost predicate UrlsDistinct(pages: seq<Page>) {
    forall i, j :: 0 <= i < j < |pages| ==> pages[i].url != pages[j].url
  }

  /** A URL is listed under some verdicts exactly when its page has one of them. */
  lemma ListedWhen(hash: Hash, baseline: map<string, PageSnapshot>, pages: seq<Page>, verdicts: set<Verdict>, p: Page)
    requires UrlsDistinct(pages) && p in pages
    ensures p.url in UrlsOf(Select(hash, baseline, pages, verdicts)) <==> Classify(hash, baseline, p) in verdicts
  {
    var s := Select(hash, baseline, pages, verdicts);
    SelectMembers(hash, baseline, pages, verdicts);
    hide Classify, Select;
    if Classify(hash, baseline, p) in verdicts {
      var i :| 0 <= i < |s| && s[i] == p;
      assert UrlsOf(s)[i] == p.url;
    }
    if p.url in UrlsOf(s) {
      var i :| 0 <= i < |s| && UrlsOf(s)[i] == p.url;
      assert s[i] in s;
    }
  }

  lemma ListedWasCrawled(hash: Hash, baseline: map<string, PageSnapshot>, pages: seq<Page>, verdicts: set<Verdict>,
      u: string)
      returns (p: Page)
    requires u in UrlsOf(Select(hash, baseline, pages, verdicts))
    ensures p in pages && p.url == u && Classify(hash, baseline, p) in verdicts
  {
    var s := Select(hash, baseline, pages, verdicts);
    SelectMembers(hash, baseline, pages, verdicts);
    hide Classify, Select;
    var i :| 0 <= i < |s| && UrlsOf(s)[i] == u;
    p := s[i];
    assert p in s;
  }

  lemma ListsDisjoint(hash: Hash, baseline: map<string, PageSnapshot>, pages: seq<Page>, a: set<Verdict>,
      b: set<Verdict>, u: string)
    requires UrlsDistinct(pages) && a !! b && u in UrlsOf(Select(hash, baseline, pages, a))
    ensures u !in UrlsOf(Select(hash, baseline, pages, b))
  {
    var p := ListedWasCrawled(hash, baseline, pages, a, u);
    ListedWhen(hash, baseline, pages, b, p);
    hide Classify, Select, UrlsOf;
  }

  /** When the crawl reports each URL once, no URL is in two of the lists. */
  lemma NoUrlInTwoLists(hash: Hash, baseline: map<string, PageSnapshot>, pages: seq<Page>, request: Request,
      response: Response, u: string)
    requires Answers(hash, baseline, pages, request, response) && UrlsDistinct(pages)
    ensures var c := response.changes;
      && !(u in c.added && u in c.changed)
      && !(u in c.added && u in c.deleted)
      && !(u in c.changed && u in c.deleted)
  {
    hide *;
    var added, changed, deleted := ListsOf(hash, baseline, pages, request, response, u);
    if u in response.changes.added {
      ListsDisjoint(hash, baseline, pages, {IsNew}, {IsChanged, IsRedirected}, u);
      ListsDisjoint(hash, baseline, pages, {IsNew}, {IsDeleted}, u);
      var p := ListedWasCrawled(hash, baseline, pages, {IsNew}, u);
      InUrlSet(pages, p);
    } else if u in response.changes.changed {
      ListsDisjoint(hash, baseline, pages, {IsChanged, IsRedirected}, {IsDeleted}, u);
      var p := ListedWasCrawled(hash, baseline, pages, {IsChanged, IsRedirected}, u);
      InUrlSet(pages, p);
    }
  }

  lemma InUrlSet(pages: seq<Page>, p: Page)
    requires p in pages
    ensures p.url in UrlSet(pages)
  {
  }

  lemma ListsOf(hash: Hash, baseline: map<string, PageSnapshot>, pages: seq<Page>, request: Request,
      response: Response, u: string)
      returns (added: seq<string>, changed: seq<string>, deleted: seq<string>)
    requires Answers(hash, baseline, pages, request, response)
    ensures added == response.changes.added == UrlsOf(Select(hash, baseline, pages, {IsNew}))
    ensures changed == response.changes.changed == UrlsOf(Select(hash, baseline, pages, {IsChanged, IsRedirected}))
    ensures deleted == UrlsOf(Select(hash, baseline, pages, {IsDeleted}))
    ensures u in response.changes.deleted ==> u in deleted || u !in UrlSet(pages)
  {
    added, changed := response.changes.added, response.changes.changed;
    deleted := Compared(hash, baseline, pages).deleted;
    hide Select, UrlsOf, UrlSet, Distinct;
    assert response.changes.deleted == response.changes.deleted[..|deleted|] + response.changes.deleted[|deleted|..];
  }

  /**
   Crawling an unchanged site again, against the snapshot of the first crawl, reports nothing new and nothing missing;
   a page counts as unchanged unless it failed or has no hash to compare.
   */
  lemma RecrawlReportsNoChange(hash: Hash, pages: seq<Page>, p: Page)
    requires UrlsDistinct(pages) && p in pages
    ensures var v := Classify(hash, SnapshotOf(hash, pages), p);
      && v != IsNew && v != IsRedirected
      && (v == IsUnchanged <==>
            p.status < 400 && (p.status == 304 || p.contentHash.Some? || p.text.Some? || p.markdown.Some?))
    ensures SnapshotOf(hash, pages).Keys == UrlSet(pages)
  {
    SnapshotKeys(hash, pages);
    var i :| 0 <= i < |pages| && pages[i] == p;
    assert SnapshotOf(hash, pages)[pages[i].url] == SnapshotOfPage(hash, pages[i]);
    var baseline := SnapshotOf(hash, pages);
    hide *;
    SamePageVerdict(hash, baseline, p);
  }

  lemma SamePageVerdict(hash: Hash, baseline: map<string, PageSnapshot>, p: Page)
    requires p.url in baseline && baseline[p.url] == SnapshotOfPage(hash, p)
    ensures var v := Classify(hash, baseline, p);
      && v != IsNew && v != IsRedirected
      && (v == IsUnchanged <==>
            p.status < 400 && (p.status == 304 || p.contentHash.Some? || p.text.Some? || p.markdown.Some?))
  {
  }
}
