# Verification of the crawler

A Dafny 4.11 model of the parts of this repository whose correctness is not visible from one function: the crawl
protocol, the JSON-schema engine, URL normalization and site-map discovery, the Markdown renderer and the research
agent. `dafny verify dfyconfig.toml` checks all of it.

## How the model is laid out

- `Prelude`, `Text`, `SortedMap`, `Sorting`, `Utf8`, `FormUrlencoded`: shared vocabulary, string functions as the Rust
  standard library defines them, ordered maps, a stable sort, and the two encodings that a URL query goes through.
- `Dedupe`, `Filters`: the URL normal form, the visited set and the guard chain.
- `Protocol`: the concurrent crawl. W workers, a detached sitemap producer and a monitor share a bounded queue, a
  visited set, a page list and counters. One step is one atomic access, a schedule is a list of events, and the
  network, robots.txt, the clock and the user answer arbitrarily. `ExactlyOnce`, `Accounting` and `Attempts` hold in
  every state that any schedule reaches.
- `SingleWorker`, `Bfs`, `BfsTheorems`, `Engine`: the crawl of one worker, as a function, its search theorems, and the
  imperative code that computes it. `SiteGraph` says what a link of a site is in terms of what the site answers, and
  `CrawlLaws` which pages a crawl visits in terms of those links. `OneWorker` shows that the concurrent machine with one worker computes that
  function under every schedule, `OneWorkerReturns` and `FairSchedules` that it comes to its end, and `Interrupted` what
  it has stored when it is cancelled or runs out of time.
- `Schedules`, `EarlyFinish`, `Overshoot`: building schedules; when a crawl can end with work left over; schedules that
  reach the bound on pages.
- `Scheduler`, `Incremental`: the permit scheduler as a state machine with a clock; the comparison of two crawls.
- `Discovery`, `SitemapFiles`, `MapEntries`, `Ranking`, `MapService`: the site map. The board of listed links, seen
  normal forms and queued pages carries the invariants; the methods move it. `MapEntries` says what each entry of the
  list is told to be.
- `Json`, `Canonical`, `SchemaLimits`, `Validation`, `Validator`, `Coercion`, `CoercionPasses`, `ExactPasses`, `Repair`:
  JSON values with ordered fields, and the four procedures over value and schema. `SchemaPaths`, `SchemaMeaning` and
  `CoercionLaws` say what limits, validation and coercion mean without the procedures' own helpers.
- `MarkdownItems`, `Markdown`, `MarkdownTable`, `MarkdownLists`, `MarkdownRenderer`: which items of a tree are numbered
  and how, what the Markdown of a tree is, tables and reading them back, the list counters, and the renderer with its
  mutable context. The specification knows no counters: an item shows its rank among the items of its list.
  `MarkdownRows`, `MarkdownReading`, `MarkdownBlocks` and `MarkdownText` read the rendered text back, element by element.
- `Evidence`, `Citations`, `Passages`, `AgentRun`: budgets and the evidence store, citation checking, cutting content
  into passages, and the run around them.

Code that works by changing things is a method with loops over fields of a class or local sequences, proved against a
function; the theorems are about the function. The validator follows JSON Schema Validation draft 2020-12, sections
6.1.1, 6.1.2, 6.2.2, 6.2.4, 6.3.1, 6.3.2 and 6.5.3, and the Core draft, sections 10.3.1.2, 10.3.2.1 and 10.3.2.3, as
far as the code does: a required field that is null is missing, lengths count UTF-8 bytes, `additionalProperties`
counts only beside `properties`, and type names are compared exactly.

Where the code and a natural reading of its documentation part ways, the code is modelled, and the theorem says what
holds. Under `Null`, one pass of coercion need not be a fixed point; it is one for every value exactly when the schema
settles (`ExactPasses.IdempotentIffSettles`). A crawl with a link to follow can return with work left over exactly when
it has several workers, or a sitemap and more than one page to fetch (`EarlyFinish.DrainCondition`). A schema node
without a single type name is coerced as an object. Coercion turns a whole float into an integer, so it leaves an
accepted value alone exactly when integers are held as integers (`Repair.ConformingUnchanged`). A citation at the very
start of a text counts without its opening bracket (`Citations.UnopenedCitationCounts`).

## Model

| member | source | states |
|---|---|---|
| `Utf8.DecodeEncode` | src/crawl/dedupe.rs:55 | Decoding UTF-8 undoes encoding it, for every string, as the parameter parser relies on (WHATWG URL Standard, section 5.1) |
| `FormUrlencoded.ParseSerialize` | src/crawl/dedupe.rs:55-75 | Parsing undoes serializing for every list of name-value pairs (WHATWG URL Standard, sections 5.1 and 5.2) |
| `FormUrlencoded.ReadableStays` | src/crawl/dedupe.rs:71-75 | Letters, digits, * - . _ are written as they are and a space as a plus sign; a text with any other character is written with an escape (WHATWG URL Standard, section 5.2) |
| `SortedMap.ListingUnique` | src/crawl/dedupe.rs:59-74 | An ordered map has exactly one ascending listing, so the serialized query depends on the mapping alone |
| `Dedupe.FilterPairs` | src/crawl/dedupe.rs:59-66 | The loop over parameters fills an ordered map: tracking keys are dropped, a later value replaces an earlier one |
| `Dedupe.NormalizeCrawlUrl` | src/crawl/dedupe.rs:29-81 | The component-by-component rewriting computes the normal form that the next rows characterize |
| `Dedupe.NormalFormIsQuotient` | src/crawl/dedupe.rs:29-81 | Two URLs have one normal form if and only if they agree on scheme, userinfo, host and port (the default one counting as named), have equal paths, an empty one counting as the root, and carry the same value, each its last, under every parameter name that is not one of the listed tracking names in any case of letters |
| `Dedupe.NormalizeKeeps` | src/crawl/dedupe.rs:29-81 | Scheme, userinfo, host, every non-empty path and every port that is not the default one are kept as they are; the fragment and an ignored query are gone; a kept query is strictly sorted, and there is one exactly when a parameter is kept |
| `Dedupe.TrackingMeaning` | src/crawl/dedupe.rs:60-64 | A parameter is dropped if and only if its name is a listed tracking name, letter by letter in either case |
| `Dedupe.ParametersMeaning` | src/crawl/dedupe.rs:55-66 | A name is mapped to a value if and only if the value is the last one given under that name, and the name is not dropped |
| `Dedupe.NormalFormSamePage` | src/crawl/dedupe.rs:29-81 | A URL and its normal form name the same page |
| `Dedupe.NormalizeIdempotent` | src/crawl/dedupe.rs:29-81 | Normalizing twice is normalizing once |
| `Dedupe.OrderAndFragmentIrrelevant` | src/crawl/dedupe.rs:36-75 | Swapping parameters of different names and changing the fragment never changes the normal form |
| `Dedupe.UrlDeduplicator.Insert` | src/crawl/dedupe.rs:127-130 | Says whether the key was new and remembers it; the whole new state is stated |
| `Filters.EvaluateUrlForCrawl` | src/crawl/filters.rs:26-82 | The chain of guards returns the first objection, and claims exactly the key of an allowed URL |
| `Filters.DecideMeaning` | src/crawl/filters.rs:34-82 | A URL is let in if and only if it is permitted, shallow enough and new; it is a duplicate if and only if only newness is missing |
| `Filters.ReasonMeaning` | src/crawl/filters.rs:26-82 | The reason given is that of the first guard that fails, in the order of the code |
| `ExactlyOnce.ExactlyOnce` | src/crawl/engine.rs:54-133 | In every reachable state each URL class is in exactly one place, the visited set is exactly the classes in some place, and every target is admissible and within the depth limit |
| `ExactlyOnce.StepConserves` | src/crawl/engine.rs:162-216 | No step of a worker, the sitemap producer, the monitor or a cancellation loses or duplicates a target |
| `ExactlyOnce.DiscoveryChain` | src/crawl/worker.rs:205-279 | Every target anywhere has a chain of discoveries, of its own depth, back to the seed |
| `Accounting.OvershootBound` | src/crawl/engine.rs:140-199 | In every interleaving at most limit + W - 1 pages are counted, with W = max(1, min(max_concurrent_fetches, limit)) |
| `Overshoot.OvershootIsReached` | src/crawl/engine.rs:140-199 | The bound cannot be improved: for every limit and every number of workers, with robots.txt or without, a seed page with enough links, all let in, allows a schedule that counts exactly limit + W - 1 pages |
| `Accounting.StepKeepsBooks` | src/crawl/engine.rs:168-199 | Every step keeps the inductive form: pages counted plus workers that may still count one stay within the bound, and every counter differs from its total by what the workers owe |
| `Accounting.ActiveWorkersExact` | src/crawl/engine.rs:179-206 | active_workers counts the workers between its increment and its decrement, so it never underflows |
| `Accounting.ExactAccounting` | src/crawl/engine.rs:244-259 | After the join, cancelled and timed-out runs included: pages = crawled = succeeded + failed + blocked, and scrapes = retries + crawled - blocked |
| `Attempts.AttemptsBounded` | src/crawl/worker.rs:121-164 | In every interleaving a URL class is scraped at most max_retries + 1 times, and only after it was claimed |
| `Engine.CrawlFrontier.TryPush` | src/crawl/frontier.rs:29-42 | Appends at the back unless full; the high-water mark and the total follow |
| `Engine.CrawlFrontier.TryPop` | src/crawl/frontier.rs:45-48 | Takes the front, and nothing from an empty queue |
| `Engine.AttemptsAreBounded` | src/crawl/worker.rs:125-164 | The retry loop makes at most max_retries + 1 attempts, every one before the last transient, and ends with the last answer |
| `Engine.FetchWithRetries` | src/crawl/worker.rs:121-164 | The loop returns the answer of the last attempt and counts one retry fewer than attempts |
| `Engine.OfferUrl` | src/crawl/worker.rs:207-243 | Evaluating and pushing a URL is one offer to the frontier; queued or refused counts it when it is let in |
| `Engine.EnqueueLinks` | src/crawl/worker.rs:202-247 | Every link is queued, refused by a full queue, a duplicate or rejected, and the counters say how many of each together |
| `Engine.Discover` | src/crawl/worker.rs:194-280 | Links and then the canonical URL are offered, under the depth and content-type conditions; which URLs those are is the next row |
| `SiteGraph.OutgoingIsLinks` | src/crawl/worker.rs:194-280 | A URL is discovered on a page if and only if the settling answer of the page, one that robots.txt lets be fetched, links to it and is HTML, or a feed that the options follow, or the options follow documents; or is its canonical hint and the options respect those |
| `SiteGraph.FinalAnswerMeaning` | src/crawl/worker.rs:125-164 | The answer that counts is that of the first attempt whose answer is not transient, or of attempt max_retries + 1; there is only one |
| `Engine.ProcessCrawlTarget` | src/crawl/worker.rs:19-333 | A target is counted under exactly one of blocked, succeeded and failed, and its discoveries are offered |
| `Engine.WorkerLoop` | src/crawl/engine.rs:162-216 | The loop computes the sequential crawl; the pages carry its targets with their status, and each counter is the number of targets with that outcome, told by robots.txt and the settling answer |
| `Engine.ExecuteCrawl` | src/crawl/engine.rs:43-279 | A whole crawl by one worker fails exactly if the seed is not let in or the queue can hold nothing; otherwise it returns the pages of the sequential crawl in order. The seed is first, every other page was linked to by an earlier one above the depth limit, no class comes twice; each status is that of the settling answer; the counters count the pages by outcome |
| `CrawlLaws.BeginMeaning` | src/crawl/engine.rs:53-78 | The crawl starts if and only if the seed is let in and the queue can hold it; the error names the first guard that fails |
| `CrawlLaws.ProcessedIsExplained` | src/crawl/worker.rs:194-280 | The seed comes first at depth 0, and every other page was linked to by an earlier one, one level up, above the depth limit |
| `CrawlLaws.ClaimedExactly` | src/crawl/worker.rs:202-280 | The classes claimed are exactly the seed's and those of the permitted URLs that processed pages above the depth limit link to |
| `CrawlLaws.LinksAreFollowed` | src/crawl/worker.rs:199-280 | Below the page limit and without a refused push, every permitted link of a processed page above the depth limit leads to a processed page |
| `CrawlLaws.HtmlLinksAreClaimed` | src/crawl/worker.rs:194-201 | Every permitted link of a processed HTML page above the depth limit is claimed, whatever the options say of feeds and documents |
| `CrawlLaws.FeedLinksAreAskedFor` | src/crawl/worker.rs:194-201 | A feed leads anywhere only if the options follow feeds or documents, or by a canonical hint that is respected |
| `Engine.StatusMeaning` | src/crawl/worker.rs:120-176 | Blocked, succeeded, failed and the status of a page, told by robots.txt and the settling answer |
| `BfsTheorems.ProcessedInDepthOrder` | src/crawl/engine.rs:175-199 | Targets are processed in nondecreasing depth, whatever the limits |
| `BfsTheorems.DepthIsDistance` | src/crawl/worker.rs:202-280 | Without a refused push each recorded depth is the length of a shortest path of links and canonical hints from the seed |
| `BfsTheorems.ProcessedIsReachable` | src/crawl/engine.rs:162-216 | Below the page limit and without a refused push, a class is processed if and only if a path no longer than max_depth leads to it |
| `BfsTheorems.CompleteSearch` | src/crawl/engine.rs:162-216 | On a site whose URLs of one class lead to the same classes, the classes processed are exactly those within max_depth of the seed in the graph of the site |
| `BfsTheorems.DepthIsSiteDistance` | src/crawl/worker.rs:202-280 | On such a site, without a refused push and even if the page limit cut the crawl short, each recorded depth is the length of a shortest path in the graph of the site |
| `BfsTheorems.LargeEnoughCrawlIsComplete` | src/crawl/frontier.rs:29-42 | Capacity and page limit above the number of classes rule out refused pushes and early stops |
| `OneWorker.StepSimulates` | src/crawl/engine.rs:162-216 | Every step of the concurrent machine with one worker keeps the simulation with the sequential crawl |
| `OneWorker.OneWorkerIsSequential` | src/crawl/engine.rs:162-219 | With one worker, no sitemap, no cancel and no time-out, every schedule that ends has computed the pages of the sequential crawl in the same order |
| `OneWorker.OneWorkerIsBreadthFirst` | src/crawl/engine.rs:162-259 | The breadth-first theorems therefore hold of every such schedule of the concurrent machine |
| `OneWorker.OneWorkerCoversSite` | src/crawl/engine.rs:162-259 | With capacity and limit above the number of classes of the site, which is known before the crawl, every such schedule drops nothing, drains the queue, and on a consistent site processes exactly the classes within max_depth |
| `OneWorker.OneWorkerFindsShortestPaths` | src/crawl/worker.rs:202-280 | Unless a push was refused, the depth of every page such a crawl returns is the length of a shortest path of links from the seed in the graph of the site |
| `OneWorkerReturns.WorkerProgress` | src/crawl/engine.rs:162-216 | Every step of a lone worker brings it closer to its exit: fewer pages left, or a later phase of the page, or fewer attempts or links left |
| `OneWorkerReturns.SomeContinuationReturns` | src/crawl/engine.rs:162-259 | From every state that a schedule of one worker without cancel and time-out reaches, some continuation of the same kind returns |
| `FairSchedules.WorkerStepsEnd` | src/crawl/engine.rs:162-219 | No endless run of such a crawl holds endlessly many steps of the worker before its exit |
| `FairSchedules.FairRunReturns` | src/crawl/engine.rs:162-259 | Every endless run of such a crawl that schedules worker and monitor again and again returns, and stays returned |
| `Interrupted.PagesAreABeginning` | src/crawl/engine.rs:162-219 | With one worker, cancel and time-out allowed at any moment, the pages stored at every moment are the first pages of the sequential crawl, in order and with its statuses |
| `EarlyFinish.StrandingCondition` | src/crawl/engine.rs:175-214 | For every configuration and every link of the seed page that would be let in: some schedule without cancel, time-out or full page limit returns with the link still queued if and only if there are two workers or more, or the sitemap is used and the limit is at least two |
| `EarlyFinish.DrainCondition` | src/crawl/engine.rs:95-214 | Every schedule without cancel or time-out that returns below the page limit has drained the queue, unless some link can be let in at all and there are two workers or more, or the sitemap is used and the limit is at least two; then one has not |
| `EarlyFinish.SeveralWorkersStrand` | src/crawl/engine.rs:162-214 | The schedule for several workers: one holds the seed before active_workers is raised, another sees nothing queued and nobody active and ends the crawl, and the link that the seed then queues is never popped |
| `EarlyFinish.LateSitemapStrands` | src/crawl/engine.rs:95-133 | The schedule for one worker: the detached sitemap task queues its URL after the worker has ended the crawl |
| `Scheduler.PermitsBounded` | src/crawl/scheduler.rs:17-52 | In every run at most max(1, G) callers hold a global permit and at most max(1, H) a permit of one host |
| `Scheduler.GrantsSpaced` | src/crawl/scheduler.rs:54-69 | In every run two grants to one host are at least the later caller's delay apart |
| `Scheduler.HoldersAreGranted` | src/crawl/scheduler.rs:54-76 | In every run each caller that holds its permit and asked for a delay has a grant of its own, for its host and its delay, so the spacing binds it |
| `Scheduler.NoNeedlessWait` | src/crawl/scheduler.rs:54-69 | In every run nobody without a delay sleeps, and whoever sleeps does so until its delay after an earlier grant on the host has passed, unless some caller of the host asked for a shorter delay |
| `Scheduler.PermitsAvailable` | src/crawl/scheduler.rs:42-52 | In every run a waiting caller can take a permit if and only if fewer than max(1, G), or max(1, H) of the host, are held |
| `Scheduler.NoDeadlock` | src/crawl/scheduler.rs:42-75 | While someone waits, someone can take the next step towards a permit or give one back |
| `Scheduler.EveryoneServed` | src/crawl/scheduler.rs:32-82 | From every state meeting the invariant of all runs, some continuation without new arrivals, in which nobody gives up, ends with nobody waiting |
| `Scheduler.RunInvariant` | src/crawl/scheduler.rs:32-82 | Permits and locks are conserved and spacing holds in every state of every run |
| `Incremental.CompareWithBaseline` | src/crawl/incremental.rs:135-163 | The chain of status and hash tests changes exactly the one entry that the verdict names |
| `Incremental.ComparePages` | src/crawl/incremental.rs:110-163 | The pass selects each list from the crawl in order, builds the snapshot and the set of crawled URLs |
| `Incremental.MissingPages` | src/crawl/incremental.rs:165-171 | Each baseline URL that was not crawled is listed exactly once |
| `Incremental.ExecuteIncrementalCrawl` | src/crawl/incremental.rs:76-190 | The answer compares the crawl with the named baseline, by snapshot id before job id; the new snapshot is kept, and can be looked up by its id and by the job; each failure is reported exactly when its cause is there, and then nothing is kept |
| `Incremental.SnapshotMeaning` | src/crawl/incremental.rs:113-131 | The snapshot has one entry per crawled URL, from the last page of that URL; the normalized hash is that of the text, or of the markdown if there is no text |
| `Incremental.NormalTextMeaning` | src/crawl/snapshot.rs:51-59 | Two texts are hashed alike if and only if their lines agree but for blank lines and the whitespace around lines; normalizing twice is normalizing once |
| `Incremental.SelectInOrder` | src/crawl/incremental.rs:110-163 | Each list keeps the order of the crawl: a page stands behind as many as were selected before it |
| `Incremental.ClassifyMeaning` | src/crawl/incremental.rs:135-163 | Each verdict if and only if its condition on status, final URL and hashes, spelled out in the fields of the page and of the baseline |
| `Incremental.PagesConserved` | src/crawl/incremental.rs:105-171 | new + changed + deleted + unchanged + unknown = pages + baseline URLs not crawled; redirected <= changed; changed_pages has new + changed entries |
| `Incremental.NoUrlInTwoLists` | src/crawl/incremental.rs:105-171 | When page URLs are distinct no URL is in two lists |
| `Incremental.RecrawlReportsNoChange` | src/crawl/incremental.rs:117-133 | Against the snapshot of an identical crawl nothing is new, redirected or missing, and a page is unchanged if and only if it did not fail and has a hash, or answered 304 |
| `Discovery.Extract` | src/discovery/lightweight.rs:47-83 | The extractor returns the first max_page_links usable links, normalized, in document order, as the next row tells |
| `Discovery.ExtractedMeaning` | src/discovery/lightweight.rs:47-83 | An anchor contributes a URL if and only if its trimmed address is not empty, is no fragment and no javascript, mailto or tel address, and joins with the base; the URL is the normal form of what it joins to, and stands behind those of the earlier anchors |
| `Discovery.AllowedMeaning` | src/discovery/service.rs:408-439 | A URL is allowed if and only if its host is the target's or, with subdomains, ends with it, some include pattern matches the path if there are any, and no exclude pattern does |
| `Discovery.OfferLinksKeeps` | src/discovery/service.rs:371-395 | Offering a page's links keeps the list distinct and inside the seen set, keeps queued pages distinct, and leaves no allowed link unseen |
| `Discovery.NotePageKeeps` | src/discovery/service.rs:341-365 | Filling in or adding the page's own node keeps the list distinct; this is where idempotence is needed |
| `Discovery.VisitLightens` | src/discovery/service.rs:290-398 | Taking a page and queueing what it yields makes the queue lighter, a page at depth d weighing (M+1)^(max_depth-d) |
| `MapEntries.VisitTold` | src/discovery/service.rs:341-397 | Every entry is true to what has been read so far: its title and description are those of its own page if that was read, and none otherwise; it names the sitemap as its source exactly if the sitemap phase found it, and the seed exactly if it is the seed's |
| `SitemapFiles.FilesWithinReach` | src/discovery/service.rs:194-269 | Every file fetched is within max_sitemap_depth of an initial file along index files; and if all that index files name fits in the queue and the list was not cut off, every such file is fetched |
| `MapService.CrawlSitemaps` | src/discovery/service.rs:194-269 | Each sitemap file is fetched once, at most max_sitemap_files of them; what is listed is what fetched files locate, marked as such; below twice the limit every allowed location of a fetched file is seen and, with files to spare, every initial file is fetched; child sitemaps are followed as stated above |
| `MapService.VisitBatch` | src/discovery/service.rs:291-397 | A batch visits the head of the queue in order, keeps the invariants and lightens the queue by at least its length |
| `MapService.CrawlHtmlDiscovery` | src/discovery/service.rs:271-406 | The phase ends, visits a prefix of everything queued, stops early only at twice the limit, and warns if and only if pages were left |
| `MapService.UntruncatedMapIsComplete` | src/discovery/service.rs:283-398 | If the queue ran dry below twice the limit, everything seen is listed, the seed if it could be fetched, and every allowed link of every visited page |
| `Ranking.RankedMeaning` | src/discovery/ranking.rs:7-24 | Ranking permutes the URLs and puts higher scores first |
| `MapService.ShortListIsComplete` | src/discovery/service.rs:129-162 | A map that discovers fewer URLs than the limit has visited everything it queued and lists every allowed link of every visited page |
| `MapService.Map` | src/discovery/service.rs:57-192 | The answer is the ranked list of everything discovered, cut to the limit: pairwise distinct URLs, each its own normal form and admitted by the filter, truncation warned of exactly; every entry has the source that found it first and the title and description of its own page; no normal form is visited twice; no sitemap file is fetched twice, at most max_sitemap_files are, and below the cut-off their allowed locations are discovered; each error exactly when due |
| `Canonical.CanonicalDecidesOrder` | src/extraction/schema.rs:195-219 | Canonical forms are equal if and only if the values differ only in the order of object keys, at any depth |
| `Canonical.CanonicalIsSorted` | src/extraction/schema.rs:195-212 | Every object of a canonical form is strictly key-sorted |
| `Canonical.SortedIsCanonical` | src/extraction/schema.rs:195-212 | A sorted value is its own canonical form |
| `Canonical.CanonicalizeIdempotent` | src/extraction/schema.rs:195-212 | Canonicalizing twice is canonicalizing once |
| `SchemaLimits.ValidateSubschema` | src/extraction/schema.rs:53-191 | With the shared counter at n, a subschema is accepted if and only if it is valid, its depth fits and n plus its property count fits; the counter then holds exactly that sum; an error names a limit that is exceeded and the first level or count beyond it, or an invalid schema |
| `SchemaLimits.ValidateSchema` | src/extraction/schema.rs:36-51 | Accepted if and only if well formed, nesting depth <= max_depth and property count over properties and items <= max_properties; an error is true and carries the first level or count beyond the limit |
| `SchemaPaths.ValidMeaning` | src/extraction/schema.rs:77-189 | Well formed means that every schema to which a path of properties and items leads is an object with keywords of the right shape |
| `SchemaPaths.DepthMeaning` | src/extraction/schema.rs:53-66 | The depth is the length of a longest such path |
| `SchemaPaths.CountMeaning` | src/extraction/schema.rs:115-160 | The property count is the number of such paths that end in a declared property |
| `Validator.ValidateNode` | src/extraction/validation.rs:19-156 | The nested loops append exactly the problems of the node to the shared list |
| `Validator.ConformsIffNoProblems` | src/extraction/validation.rs:8-156 | No problem is reported if and only if the value conforms, despite the shared list and the early return |
| `Validator.Validate` | src/extraction/validation.rs:8-17 | For values and schemas that name each field once: Ok if and only if the value meets every keyword, and otherwise the problems listed are exactly those there are, each under the path of the part that has it |
| `SchemaMeaning.ConformsMeaning` | src/extraction/validation.rs:19-156 | The relation that the validator decides is the meaning of the keywords, stated without its helpers: types, enum up to key order, required names given with a value other than null, properties, additionalProperties, items, bounds, and lengths in UTF-8 bytes |
| `SchemaMeaning.ReportedIsTold` | src/extraction/validation.rs:19-156 | A problem is reported under a path if and only if the part of the value that the rest of the path leads to has it |
| `Coercion.CoerceIdempotent` | src/extraction/repair.rs:80-183 | Under Omit and Error a second coercion changes nothing, for every value and schema |
| `CoercionPasses.FixedPointReached` | src/extraction/repair.rs:96-118 | Under Null, D + 1 passes reach a fixed point, D being the nesting depth of properties |
| `CoercionPasses.BoundIsTight` | src/extraction/repair.rs:96-135 | For every D some schema of depth D still changes at pass D + 1 |
| `ExactPasses.PassesAreExact` | src/extraction/repair.rs:96-135 | Under Null, n >= 1 passes reach a fixed point for every value if and only if n >= Needed(schema), a number computed from the schema alone |
| `ExactPasses.IdempotentIffSettles` | src/extraction/repair.rs:96-135 | Under Null, a second coercion changes no value if and only if, from the root through array items, no object schema declares a property of object or array kind |
| `Repair.ConformingUnchanged` | src/extraction/repair.rs:80-183 | Under Omit and Error and single lowercase types, coercion leaves an accepted value unchanged if and only if every integer is held as one |
| `Repair.CoerceProperties` | src/extraction/repair.rs:97-115 | Updating a copy of the map property by property yields every declared field coerced in place and the missing ones appended as null |
| `Repair.DeterministicCoerce` | src/extraction/repair.rs:80-183 | The recursive procedure computes the one result that the declarative relation allows |
| `CoercionLaws.CoerceMeaning` | src/extraction/repair.rs:80-183 | The relation holds of exactly one result: a text under boolean becomes true or false if and only if its folded form is one of the listed words of that value; a float under integer becomes the nearest integer within 64 bits; a number or integer is read from a text that can be read; an object keeps its fields in place and, under Null, gains the missing ones in declared order; an array is coerced item by item |
| `CoercionLaws.TextReadsBack` | src/extraction/repair.rs:136-181 | A boolean, an integer or a number that is written as text and read again is what it was, provided that the lexer reads back what it shows |
| `CoercionLaws.SingleBecomesList` | src/extraction/repair.rs:119-135 | A value that is no array becomes the one item, coerced, of the array asked for |
| `Repair.RepairAndValidate` | src/extraction/repair.rs:13-77 | For any provider answer, an Ok value conforms and is what the relation makes of the raw value or, exactly when the flag is set, of a permitted repair; Ok exactly when one of the two conforms; an error lists the problems of the last one tried |
| `MarkdownTable.CleanCellMeaning` | src/extract/markdown.rs:336-342 | Unescaping a cleaned cell gives its trimmed text with newlines as spaces |
| `MarkdownTable.ParsePrintedRow` | src/extract/markdown.rs:305-321 | Splitting a printed row at pipes without a backslash, dropping the pad spaces and unescaping gives back its cells |
| `MarkdownTable.TableRoundTrip` | src/extract/markdown.rs:284-322 | Reading back a printed table gives the cleaned matrix padded to max_cols, with one divider row of max_cols cells (GitHub Flavored Markdown, section 4.10) |
| `Markdown.RenderedTableReadsBack` | src/extract/markdown.rs:247-251 | A table element renders as such a table, whatever its cells hold |
| `MarkdownRows.TableRowsMeaning` | src/extract/markdown.rs:324-356 | A table shows every row below it that has a cell and stands in no other row, in document order, and of each row the th and td children from left to right, each rendered on its own |
| `MarkdownReading.LinkReadsBack` | src/extract/markdown.rs:138-166 | A link reads back: for every anchor with a non-empty href and a label without brackets, the text appended is split into the trimmed label, or the address if that is blank, and the resolved address, in that order; without an href only the label is appended |
| `MarkdownReading.ImageReadsBack` | src/extract/markdown.rs:168-189 | An image reads back as its trimmed alternative text and its resolved address, src before data-src; without an address nothing is appended |
| `MarkdownReading.HeadingReadsBack` | src/extract/markdown.rs:58-66 | A heading is set off by empty lines, and its number of leading # is the digit of its tag name; what follows the space is the content |
| `MarkdownBlocks.SpanReadsBack` | src/extract/markdown.rs:74-90 | Strong, emphasized and struck content stands between two marks of its own kind |
| `MarkdownBlocks.CodeReadsBack` | src/extract/markdown.rs:127-135 | Code stands between backticks, and inside preformatted text is its content alone |
| `MarkdownBlocks.FenceReadsBack` | src/extract/markdown.rs:92-126 | Preformatted text is set off, stands between fences on lines of their own, names its language on the first, and holds its content rendered as preformatted |
| `MarkdownBlocks.LanguageMeaning` | src/extract/markdown.rs:93-109 | The language is that of the last class that begins with language- or lang- on a code child, or none |
| `MarkdownBlocks.QuoteReadsBack` | src/extract/markdown.rs:234-249 | A quotation is set off, and taking the mark off each of its lines gives the lines of the content, trimmed and without the blank ones |
| `MarkdownBlocks.ItemReadsBack` | src/extract/markdown.rs:211-232 | An item starts on a line of its own, indented by its depth, with its numeral or a dash, and then its content |
| `MarkdownBlocks.ParagraphSetOff` | src/extract/markdown.rs:68-72 | A paragraph is its content between empty lines |
| `MarkdownBlocks.ListSetOff` | src/extract/markdown.rs:190-209 | A list is its content on lines of its own, one level deeper |
| `MarkdownBlocks.RuleAndBreak` | src/extract/markdown.rs:258-266 | A rule is three dashes between empty lines, a break one line feed |
| `MarkdownText.TextIsKept` | src/extract/markdown.rs:34-52 | Outside preformatted text, text keeps its words and its order, and runs of whitespace become one space; inside it, every character is kept |
| `MarkdownText.TagMeaning` | src/extract/markdown.rs:54-274 | Which element names are which elements, in either case of letters |
| `MarkdownText.ContainerRendered` | src/extract/markdown.rs:269-272 | Every other element is its content |
| `MarkdownText.CleanUpKeepsWords` | src/extract/markdown.rs:373-392 | The clean-up loses no word, joins none and splits none |
| `MarkdownText.CleanUpIsTidy` | src/extract/markdown.rs:373-392 | The clean-up makes lines of which none ends in whitespace and no three in a row are empty, and trims the whole |
| `Text.WordsApart` | src/extract/markdown.rs:100 | Whitespace separates words, whatever stands on either side |
| `Text.WordsOfSolid` | src/extract/markdown.rs:100 | A text without whitespace is one word |
| `Text.TrimMeaning` | src/extract/markdown.rs:391 | Trimming takes away the whitespace around a text, all of it and nothing else |
| `MarkdownItems.ItemsMeaning` | src/extract/markdown.rs:188-230 | A node is a numbered item of a list if and only if its path leads to an li that is rendered and its nearest list is that list, an ol; nothing below an image, break or rule is rendered, and in a table only cells |
| `MarkdownItems.AllInOrder` | src/extract/markdown.rs:278-282 | The numbered items come in document order, so none is listed twice |
| `MarkdownItems.KthItemHasNumeralK` | src/extract/markdown.rs:198-230 | On any tree, among the li whose nearest list is a given ol, the k-th in document order has the numeral k |
| `Markdown.OrderedListNumerals` | src/extract/markdown.rs:198-230 | On any tree, the k-th li whose nearest list is a given ol is rendered with the numeral k, whatever precedes it and however deep it stands |
| `Text.DecimalReads` | src/extract/markdown.rs:222 | The digits of a numeral stand for it, without leading zeros |
| `MarkdownLists.MarkedSound` | src/extract/markdown.rs:213-226 | The counter that the marker of an item shows is the rank of that item in its list, and printing it keeps every counter one ahead |
| `MarkdownLists.OpenedSound` | src/extract/markdown.rs:198-203 | Opening a list at a node starts its counter at the rank of its first item, whatever lists are open |
| `MarkdownLists.ClosedRestores` | src/extract/markdown.rs:188-206 | Closing a list restores the stack it was opened on, whatever was rendered in between |
| `MarkdownRenderer.MarkdownContext.NextMarker` | src/extract/markdown.rs:213-226 | Prints the counter of the innermost list, which is the rank of the item in that list, and moves only that counter |
| `MarkdownRenderer.RenderNode` | src/extract/markdown.rs:32-276 | Renders any tree as the specification says, in which every numbered item shows its rank in its list; list_depth, inside_pre and all but the top of list_indices are restored, the top has moved by the items of that list, and list_depth is the stack height |
| `MarkdownRenderer.RenderChildren` | src/extract/markdown.rs:278-282 | Children render one after the other, each continuing the counters as the one before left them |
| `MarkdownRenderer.CollectTableRows` | src/extract/markdown.rs:324-356 | Collects the cleaned cells of the rows below a node, rows without cells left out |
| `MarkdownRenderer.RenderTable` | src/extract/markdown.rs:284-322 | Prints the collected rows as a padded table, or nothing |
| `MarkdownRenderer.ConvertHtml` | src/extract/markdown.rs:8-23 | A whole document renders as specified, without counters: every numbered item shows the rank it has in its list |
| `Evidence.BudgetWithinConfig` | src/agent/budgets.rs:24-70 | Each limit is the smaller of what the deployment allows and what the request asks for, and the deadline follows from the duration |
| `Evidence.BudgetTracker.RecordPage` | src/agent/budgets.rs:125-132 | Refused after the deadline without a charge; otherwise charged, and granted while charges stay within max_pages |
| `Evidence.BudgetTracker.RecordSearchQuery` | src/agent/budgets.rs:134-144 | The same for search queries |
| `Evidence.BudgetTracker.RecordStep` | src/agent/budgets.rs:116-123 | The same for steps |
| `Evidence.EvidenceIdInjective` | src/agent/evidence.rs:55-58 | Different numbers give different evidence ids |
| `Evidence.EvidenceStore.Insert` | src/agent/evidence.rs:76-94 | Known content is refused; new content is appended, under the next id if it has none, and the store stays numbered without gaps and free of repeated content |
| `Evidence.FindsItself` | src/agent/evidence.rs:97-99 | Looking up an id finds the item that has it |
| `Evidence.TopRelevantMeaning` | src/agent/evidence.rs:107-118 | The best min(limit, n) items, best first; nothing left out scores higher than anything kept |
| `Citations.ExtractCitationIds` | src/agent/citations.rs:11-31 | The loop returns each id once, in the order of first appearance |
| `Citations.CitedIdsMeaning` | src/agent/citations.rs:11-31 | An id is found if and only if it stands, trimmed, between an opening bracket, or the start of the text, and the next closing bracket |
| `Citations.UnopenedCitationCounts` | src/agent/citations.rs:15-27 | At the start of a text the opening bracket is not needed |
| `Citations.UnopenedExample` | src/agent/citations.rs:15-27 | The text "E1] is cited" cites E1 |
| `Citations.BracketsSufficeIff` | src/agent/citations.rs:15-27 | Everything a text cites stands between brackets if and only if the text before the first opening bracket cites nothing, or something that is bracketed later |
| `Citations.CitedMeaning` | src/agent/citations.rs:46-86 | Exactly the used ids that the store knows are cited, each with its own evidence and every label it was used for, in order |
| `Citations.KnownIdsMeaning` | src/agent/citations.rs:66-86 | What remains of a claim's evidence ids is exactly the part that the store knows |
| `Citations.UnwarnedIffUntouched` | src/agent/citations.rs:46-103 | There is no warning if and only if the text cites only known evidence and every claim comes out unchanged; and claims come out unchanged if and only if they cite only known evidence |
| `Citations.WarningsMeaning` | src/agent/citations.rs:55-84 | Each id that the text or a claim cites and no item has is warned of by name, with the claim, and nothing else is |
| `Citations.FinalCitationsGrounded` | src/agent/citations.rs:42-103 | Every citation quotes an item of the store under that item's id, in the fallback case too |
| `Citations.FinalCitationsMeaning` | src/agent/citations.rs:41-103 | If the text or the claims use an id that the store knows, exactly the ids used and known are cited, each quoting its item, with every use as support; otherwise the best items are cited as general evidence; nothing is cited only if the store is empty |
| `Citations.NamesMeaning` | src/agent/citations.rs:18-25 | An id counts if and only if it is E followed by digits, or begins with src_ or chk_ |
| `AgentRun.ValidatedCites` | src/agent/citations.rs:88-111 | The list of citations has every stored id that the text or a claim uses, quoting its item, and is empty only if the store is |
| `Citations.ValidateAndBuildCitations` | src/agent/citations.rs:34-112 | Claims are cleaned in place, the citations are listed once each in ascending order of id, and every unsupported use is warned of |
| `AgentRun.ScrapeAndExtractEvidence` | src/agent/executor.rs:309-370 | One page is charged; a refusal calls nothing; otherwise the URL is scraped once, an answer is stored passage by passage, and afterwards the content of each of its passages is known |
| `AgentRun.PassagesOfMeaning` | src/agent/executor.rs:339-348 | The passages of an answer are those of its markdown, or of its text if there is no markdown, or none |
| `Passages.PassagesMeaning` | src/agent/executor.rs:347-349 | A text is a passage if and only if it is one of the stretches of the content without the whitespace around it, and is 40 to 2000 bytes long |
| `Passages.ParagraphsMeaning` | src/agent/executor.rs:347 | The stretches joined by two line feeds are the content, none holds two line feeds in a row, and only the last may end in one, so each cut is made at the first place possible |
| `Passages.FittingInOrder` | src/agent/executor.rs:347-366 | Passages are taken in the order of the content |
| `AgentRun.ChargedSearch` | src/agent/executor.rs:120-137 | One search query is charged; the search is called exactly when it is granted |
| `AgentRun.PassagesKnown` | src/agent/executor.rs:345-366 | Every passage of an answer is stored unless its content was known |
| `AgentRun.AnswerSupported` | src/agent/executor.rs:235-251 | Whatever text and claims the synthesizer returns, every citation quotes a passage of an answer to a scrape of its URL in this run, and every remaining evidence id is in the store |
| `AgentRun.RunJob` | src/agent/executor.rs:48-306 | For any plan, tool answers, synthesis and timing of pause, resume and cancel: among the calls made to the tools scrapes <= max_pages, searches <= max_search_queries and no URL is scraped twice; a failed plan calls nothing; the synthesizer answers exactly once in a completed run, and then the result is what validation makes of that answer: its markdown, the citations it uses or the best ones, its claims cleaned, and every warning due; every citation quotes a passage that one of those scrapes returned, under its URL |
| `AgentRun.SubmitAndWait` | src/agent/service.rs:133-140 | The calls of a submitted job stay within the budget that request and deployment give it, and a completed job returns the validated answer |
| `AgentRun.LawfulMeansDistinct` | src/agent/evidence.rs:76-94 | In every run evidence ids, content hashes and scraped URLs are pairwise distinct |

## Left out

- Network, DNS, TLS, browser control, LLM and search providers, REST routes, the command line and configuration parsing are I/O; their results are arbitrary parameters or arbitrary values chosen inside a method.
- HTML, XML, sitemap and robots.txt parsing, glob patterns, the safety and static-asset tests on hosts and paths, and the scores of relevance and readability are taken as given functions.
- URL syntax: a `Url` value stands for its serialization, so parsing a serialized URL is the identity; resolution of references is a given function, and URLs with opaque paths are not distinguished.
- Case folding of tag names, type names and boolean words is ASCII folding; to_lowercase also folds other scripts.
- Floating-point numbers are reals; how numeric strings are read and numbers printed is a given function of the model's `Lexer`.
- JSON objects keep insertion order; the order of keys in a map of the standard library is arbitrary where the code iterates over one.
- Atomics are sequentially consistent; counters do not wrap; string slices never split a character.
- Completeness of a crawl by several workers: it is false, because a worker pops before it raises active_workers; `EarlyFinish.StrandingCondition` says exactly when, and it is proved for one worker.
- The one-worker theorems leave out the sitemap producer; the theorems about every interleaving include it.
- Engine.FetchWithRetries: leaves out the cancel flag, which ends the wait between attempts; `Protocol.AttemptStep` has it, and `Interrupted.PagesAreABeginning` says what it can do to a crawl by one worker.
- Engine.ProcessCrawlTarget: leaves out the cancel flag, as above, and the status that belongs to an error, for which the page has the constant `NO_STATUS`.
- Engine.WorkerLoop: leaves out the cancel and finished flags, as above.
- Engine.ExecuteCrawl: has one worker and neither monitor nor sitemap task; `OneWorker` and `Protocol` have them.
- Links whose text does not parse as a URL are dropped before the model's lists of links begin, so the discovered counter counts parsed links only.
- Protocol.AttemptStep: a failed scrape gives a page with the status constant `NO_STATUS`; the code writes the status that belongs to the error.
- Byte counts, timings, renderer counters, content fields of pages and the job status are not modelled.
- The digest of a text is a given function; texts with one digest count as equal.
- The crawl never calls the scheduler, so the scheduler is verified on its own; its semaphores are counted, without their queueing order, and host names are given already lower-cased.
- SitemapFiles.FilesWithinReach: when the queue fills, children are dropped silently, and which ones are not described.
- The cache of the map service and the anchor texts of links are not modelled; robots.txt sitemaps arrive as a list.
- MapService.Map: says that visited pages have distinct normal forms, not that each is fetched by one request, because a failed browser fetch is followed by a plain one.
- Evidence.EvidenceStore.Insert: keeps the store numbered only for items without an id of their own, which is how the run inserts them.
- AgentRun.RunJob: says what calls a run may make, not that it makes any: a pause ends the research early without an error. Calls of other jobs through the same tools are not modelled.
- AgentRun: warnings of the run other than those of citation checking, traces, conflicts and statistics are not modelled, and search results arrive already ranked.
- Agent status after pause and cancel, job store eviction, knowledge index counters, the planner and the evaluator are not modelled.
