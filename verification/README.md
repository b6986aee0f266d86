# Verified models of the Taksitlio operations scripts

This Dafny project models the stateful cores of Taksitlio's crawl, catalog, approval and
evaluation scripts and proves what they keep. `dafny verify dfyconfig.toml` checks all of it.

| module | what it models |
|---|---|
| `CrawlBudget` | crawler processes that share a product cap through nothing but the `count` fields of each other's feed files: a transition system of four kinds of crawlers and the bound on the overshoot |
| `TightOvershoot` | an interleaving that reaches the bound |
| `CapHolds` | when the cap holds in every interleaving, and when the bound is exact |
| `CrawlOutcomes` | what each step of a crawler leaves on disk and in memory |
| `SitemapStream` | the sitemap crawler's own loops, as a class that runs the protocol while other crawlers move |
| `VatanPages` | the page loop that ends only because of a cap |
| `Watchdog` | the reap and fill loop of the crawl scheduler over an arbitrary environment, as transitions and as a class |
| `WatchdogVerdicts` | what a reap and a fill decide about one code |
| `EventStream` | the incremental event-stream reader, a simplified form of sections 9.2.5 and 9.2.6 of the WHATWG HTML Living Standard, and the server generator it reads from |
| `StreamBlocks` | what a block of the stream means, line by line |
| `WatchdogFutures` | why the condition on a scheduler cycle is needed: every cycle that breaks it has a future that starts a code too early |
| `GoldenProtocol` | concurrent approval runs with optimistic locking |
| `GoldenPolicy` | the policy-gap evaluator and one approval run, and when the two agree |
| `GoldenCandidates` | inserting new candidates, and the pipeline of all three |
| `GoldenCounts` | what each row adds to the figures of the evaluator and the approval run |
| `ResidualCodes` | the cause coder and the export of one row |
| `ResidualMetrics` | micro-averaged counters, rates and percentiles |
| `ResidualTargets` | failure patterns, example targets within a budget, the decision hint |
| `ResidualReview` | the human-review queue and the independent end validator |
| `ResidualVerdicts` | what an exported row says, in terms of the reply and the annotation |
| `ResidualFigures` | what the reported rates, percentiles, weights, targets, marks and checks are |
| `CatalogSync` | feed fields copied into products through three write buffers |
| `SyncOutcomes` | what a sync leaves in each field of a product |
| `CatalogIntegrity` | quarantine and re-scoring, in SQL's three-valued logic |
| `IntegrityOutcomes` | what hiding and re-scoring leave of a product |
| `ImageBackfill` | concurrent image workers with a semaphore, a lock and shared counters |
| `BackfillOutcomes` | what becomes of a product, an asset and the counters |
| `TurkishPrice` | two parsers of Turkish money amounts |
| `PriceAgreement` | on which texts the two parsers agree |
| `PricePatterns` | what the two patterns match and what `float` reads |
| `JsonLdWorklist` | a worklist that grows while it is walked |
| `JsonLdReach` | the walk against reachability |
| `Prelude`, `Text`, `RowSupply` | options, sums and counting; `str.strip` and `str.lower`; example rows |

Where the scripts change things step by step the model does: classes whose methods are proved
equal to specification functions, about which the results are then proved. Protocols between
processes or concurrent workers are transition systems, and their results hold for every
interleaving.

Assumptions. Prices, rates, weights and shares are exact numbers where the scripts use floats.
Integers are unbounded, as in Python. An UPDATE statement and one turn of a loop body under a
lock are atomic. So is writing a feed file, and a reader never finds one half written: the script
that counts would skip such a file. Stored `row_version` values follow their column default of 1.
Clocks do not run backwards. Dictionaries read from JSON have distinct keys.

Results that differ from what the scripts intend, each with its exact condition or a concrete
case:

- The product cap holds in every interleaving only if at most one source has a crawler, or two
  sources have limits that fit (`CapHolds.CapHoldsIff`); otherwise it can be passed, by at most
  all blind spots but the smallest (`CapHolds.OvershootIsExact`). The crawl4ai script can put 100
  products on disk unseen, the sitemap crawler 150, the Hybris crawler, which reads the cap once
  per batch, 300, and the Vatan crawler as many as it may, each at most as many as its limit and
  the cap.
- A scheduler cycle looks at the process list twice. If a code vanishes in between and its
  relaunch fails, its cool-down can be lost (`WatchdogFutures.SteadyIffSafe`,
  `Watchdog.CooldownCanBeLost`).
- JSON texts sent as `data:` may contain U+0085, U+2028 or U+2029, at which the reader's
  `splitlines` cuts them (`EventStream.FrameRoundTrip`).
- An approved golden case can be approved once more, exactly by a run that had captured the
  version just below the approved one (`GoldenProtocol.SecondApprovalIff`).
- Evaluator and approval run read a row's bucket differently (`GoldenPolicy.AgreementExact`), and
  rows in status CANDIDATE can keep a gap open (`GoldenCandidates.ParkedCandidatesBlock`).
- A reply that is valid JSON but a non-empty list, a text or a number aborts the export
  (`ResidualCodes.ExportRow`).
- A second sync writes attributes again where two fields disagree
  (`CatalogSync.SecondSyncWritesIffConflict`).
- SQL's third truth value drops the image from a block reason and keeps a product READY without
  evidence; re-scoring can undo a quarantine (`CatalogIntegrity.BlockIsExact`,
  `CatalogIntegrity.RescoredReady`, `CatalogIntegrity.EnforceThenRescore`).
- The two money parsers agree on a text only if their patterns do, or its dots cannot matter
  (`PriceAgreement.ParsersAgreeIff`); "12345.678", "1.2345" and "1.299 $" are read
  differently.
- An ItemList whose elements are a nonzero number or `true` makes the extractor fail
  (`JsonLdWorklist.Walk`).

## Model

| member | source | states |
|---|---|---|
| `CrawlBudget.OvershootBound` | scripts/fetch_live_merchant_feeds.py:75-107 | main result: in every interleaving of any number of crawlers of the four kinds, with or without merchant limits, starting with all of them idle and a total within the cap, the sum of the feed counts never exceeds the cap plus the blind spots of all crawlers but one; nothing is assumed about the crawled rows |
| `CapHolds.CapHoldsIff` | scripts/fetch_live_merchant_feeds.py:75-107 | main result: whatever the merchant limits, the cap holds in every interleaving if and only if at most one source has a crawler, or there are only two sources and their limits fit into the cap together |
| `CapHolds.OvershootIsExact` | scripts/fetch_live_merchant_feeds.py:802-825 | main result: a number that is at least the cap plus the overshoot bounds every run, and where a least blind crawler can fill what the others leave no smaller number does |
| `CapHolds.UnlimitedFills` | scripts/fetch_live_merchant_feeds.py:96-107 | it can, whatever its kind, when no source that has a crawler has a limit below the cap |
| `CapHolds.FittingIsNotExact` | scripts/fetch_live_merchant_feeds.py:96-107 | with two crawlers whose limits fit it cannot: the overshoot is positive and yet no run passes the cap |
| `TightOvershoot.OvershootIsReached` | scripts/fetch_live_merchant_feeds.py:437-468 | a run that ends exactly on the bound, for any kinds and limits with which the least blind crawler can fill the cap, or fill what a source without a crawler leaves of it; its checkpoints are only where the scripts write them: at multiples of 100 or 150 results and after the last URL |
| `CrawlBudget.SingleCrawlerNeverExceedsCap` | scripts/fetch_live_merchant_feeds.py:75-107 | with one crawler the cap is exact after every step of every run |
| `CrawlBudget.FinishWithinCap` | scripts/fetch_live_merchant_feeds.py:872-876 | the final write of a crawl with positive room leaves the total at most at the cap and writes a prefix of what was admitted; with no room the sitemap crawlers keep the feed of their last checkpoint, the crawl4ai script empties its own; no other feed or process is touched |
| `CrawlBudget.OthersPotential` | scripts/fetch_live_merchant_feeds.py:48-72 | what the other sources can still put on disk without looking is at most what they have on disk plus all blind spots but one |
| `CrawlBudget.NextKeepsInv` | scripts/fetch_live_merchant_feeds.py:802-825 | every step of every crawler (open, read the cap, result, listing page, checkpoint, finish, abort) keeps the global invariant |
| `CrawlBudget.RunKeepsInv` | scripts/fetch_live_merchant_feeds.py:777-831 | every finite run keeps it |
| `CrawlBudget.NextIsLocal` | scripts/fetch_teknosa_crawl4ai.py:147-171 | a step concerns one source, and what that source may put on disk without another look at the cap grows only into room it has just read |
| `CrawlBudget.CheckpointIsLocal` | scripts/fetch_live_merchant_feeds.py:437-468 | a checkpoint of the Hybris crawler, due after every 150th result and after the last URL if no batch was cut, puts no more on disk than its last look at the cap allowed |
| `CrawlBudget.AbsoluteCap` | scripts/fetch_live_merchant_feeds.py:90-107 | the live cap is absent exactly when neither limit nor cap is set; otherwise it is one of the limit and the room that are set, and above neither |
| `CrawlBudget.WritesInOrder` | scripts/fetch_live_merchant_feeds.py:1328-1345 | what is written is exactly the rows that have name, price and URL, in their order |
| `CrawlOutcomes.OpenLeaves` | scripts/fetch_live_merchant_feeds.py:731-737 | starting a crawl that may hold n products: with at least n loaded the sitemap and listing crawlers write the complete ones of the first n, so the feed holds at most n and the total is within the cap, and end; with n zero they write back what they loaded, if anything; the crawl4ai script changes nothing; with room the crawl begins with the loaded rows and no feed changes; never does another source |
| `CrawlOutcomes.ResultLeaves` | scripts/fetch_live_merchant_feeds.py:802-810 | a fetched row with an id is admitted exactly if there is room under the cap that counts, the live one or, for the Hybris crawler, the one read before its batch; it replaces the row with its id or comes last |
| `CrawlOutcomes.LookLeaves` | scripts/fetch_live_merchant_feeds.py:1117-1119 | a look at the cap: the Hybris crawler cuts its next 300 URLs to the room, the listing crawler requests its next page or ends with its list cut to the cap |
| `CrawlOutcomes.AnswerLeaves` | scripts/fetch_live_merchant_feeds.py:1127-1135 | a listing is merged; the crawl goes on below the cap read before the request and otherwise ends with the list cut to it |
| `CrawlOutcomes.LoadById` | scripts/fetch_live_merchant_feeds.py:628-629 | resuming gives every id but the empty one once, at the place of its first stored row and with the value of its last |
| `CrawlOutcomes.MergeById` | scripts/fetch_live_merchant_feeds.py:1128-1129 | so does merging rows into a dictionary by id |
| `CrawlOutcomes.PageLeaves` | scripts/fetch_live_merchant_feeds.py:1121-1143 | what one turn of the page loop decides: an empty or failed page ends the category, a full list the crawl, and the next page follows exactly if some id is new and a later page is linked |
| `SitemapStream.Stream.Take` | scripts/fetch_live_merchant_feeds.py:802-810 | taking one result under the lock is one step of the protocol; the failure counter rises exactly for pages without a product id |
| `SitemapStream.Stream.Save` | scripts/fetch_live_merchant_feeds.py:811-816 | a checkpoint writes every complete admitted row and is one step of the protocol |
| `SitemapStream.Stream.ProcessBatch` | scripts/fetch_live_merchant_feeds.py:797-820 | one batch of results, with other crawlers moving in between, is a run of the protocol |
| `SitemapStream.Stream.ProcessUrls` | scripts/fetch_live_merchant_feeds.py:777-831 | the loop over one sitemap, with arbitrary moves of the other crawlers at every look at the shared directory, is a run of the protocol, so the overshoot bound holds at its end; it reports a stop only if there is no room under the live cap |
| `VatanPages.FetchVatan` | scripts/fetch_live_merchant_feeds.py:1095-1148 | with a limit or a cap in force the page loop ends for every server and every movement of the live cap, after at most one request per category plus one per product still missing; its result has distinct ids, stays below the fixed ceiling and comes from the old feed or from a response, and unless a cap that was read is reached every category was asked for and no product is missing; after a page comes its successor, and that was linked, or the first page of the next category, and then no later page was linked or the page held no new id |
| `VatanPages.OnPageGrows` | scripts/fetch_live_merchant_feeds.py:1116-1144 | one page keeps ids distinct and within the live cap, and the loop goes on to a next page only after the list has grown |
| `VatanPages.OnPageKeeps` | scripts/fetch_live_merchant_feeds.py:1127-1138 | a page either fills the list up to the cap it was read against or loses no product id |
| `VatanPages.TurnIsAnswer` | scripts/fetch_live_merchant_feeds.py:1120-1144 | a turn of the page loop is a step of the shared budget protocol, so the overshoot bound covers this crawler: it may write as many products as the room it read before its request |
| `VatanPages.LoadExact` | scripts/fetch_live_merchant_feeds.py:623-632 | resuming keeps, for every id but the empty one, exactly the last stored row |
| `VatanPages.MergeDistinct` | scripts/fetch_live_merchant_feeds.py:1128-1129 | rebuilding the dictionary of rows by id is incremental |
| `VatanPages.UncappedNeverEnds` | scripts/fetch_live_merchant_feeds.py:1114-1144 | with neither limit nor cap there is a server whose answers keep the loop on its first category for any number of requests |
| `Watchdog.CooldownIsKept` | scripts/auto_partner_ops.py:201-229 | in every run whose cycles before the last are steady, a code that stalled or failed to start at time t is not started before t plus the cool-down |
| `WatchdogFutures.SteadyIffSafe` | scripts/auto_partner_ops.py:516-548 | main result: a cycle is steady (no turn fails to launch a code that still has its entry, with a cool-down lasting past the end of the cycle) if and only if, however the world goes on after it, the next cycle starts no code within its cool-down |
| `WatchdogFutures.ExposedCanStart` | scripts/auto_partner_ops.py:449-464 | the hard half: from every state after a cycle that was not steady, a future with an empty process list and a feed that has grown at the reap starts the code too early |
| `Watchdog.CycleExact` | scripts/auto_partner_ops.py:516-548 | a cycle keeps the scheduler invariant if and only if it is steady, and keeps the cool-downs it has promised so far in any case |
| `Watchdog.SteadyInLog` | scripts/auto_partner_ops.py:421-446 | the guard read off the log: a fill is steady exactly if it logs no failure of a code that had an entry, with a cool-down past the end |
| `Watchdog.AgreeingIsSteady` | scripts/auto_partner_ops.py:421-464 | if every kept code is still in the process list when slots are filled, the cycle is steady |
| `Watchdog.CooldownCanBeLost` | scripts/auto_partner_ops.py:421-464 | with the code's two looks per cycle the cool-down can fail: a concrete world in which a code fails at 120 s and is started at 270 s |
| `Watchdog.FillRespectsSlots` | scripts/auto_partner_ops.py:421-446 | a fill starts no running code and never takes the running set past the larger of its size and the number of slots |
| `Watchdog.ReapKeepsInv` | scripts/auto_partner_ops.py:449-464 | reaping keeps the invariant: one entry per code, clearing no live cool-down |
| `Watchdog.EntryOutlivesFailures` | scripts/auto_partner_ops.py:449-464 | a code that has an entry has no failure younger than the cool-down |
| `Watchdog.ReapSettles` | scripts/auto_partner_ops.py:449-464 | a reap keeps the entries of exactly the codes in the process list; every other code that had one is either cleared or in the cool-down of a failure this reap logged, and the cool-downs of all other codes stay |
| `Watchdog.FillIsGreedy` | scripts/auto_partner_ops.py:421-446 | while the world is quiet a fill starts exactly the first eligible codes in queue order, as many as there are free slots |
| `Watchdog.Ops.ReapFinished` | scripts/auto_partner_ops.py:449-464 | the reap loop over the dictionary of started codes equals the specified transition |
| `Watchdog.Ops.FillCrawlSlots` | scripts/auto_partner_ops.py:421-446 | the fill loop, with its early exits, equals the specified transition |
| `Watchdog.MarkFailKeepsInv` | scripts/auto_partner_ops.py:213-222 | a failure of a code without an entry keeps the invariant: it is remembered until its cool-down is over |
| `Watchdog.MarkOkKeepsInv` | scripts/auto_partner_ops.py:225-229 | success may clear the cool-down of a code all of whose failures are older than the cool-down: the invariant stays |
| `Watchdog.ReapCodeSettles` | scripts/auto_partner_ops.py:454-463 | reaping one code removes its entry and either clears it without a failure or logs one failure, raises its count and starts a cool-down, the latter exactly if its feed has neither grown past the count in its entry nor reached its threshold; no other code changes |
| `WatchdogVerdicts.SteadyFeedVerdict` | scripts/auto_partner_ops.py:454-463 | main result on reaping: a code that has an entry, left the process list and whose feed holds n products from then on gets a logged failure and a cool-down from that time on if n is at most its count at the start and below its threshold, and otherwise neither |
| `WatchdogVerdicts.ReapVerdict` | scripts/auto_partner_ops.py:449-464 | without assuming a constant feed: the reap looks once at the feed of each such code, and what it sees then decides between one failure more, with a cool-down from that time on, and a cleared record |
| `WatchdogVerdicts.FillVerdict` | scripts/auto_partner_ops.py:421-446 | the fill code by code: at its turn a queued code is launched exactly if it is not running, below its threshold and past its cool-down; a launch leaves an entry with the products it had by then, a failed one a logged failure and a cool-down; a code gets no turn only when a stop is asked for or the free slots are used up; all other codes are left alone |
| `WatchdogVerdicts.FillInOrder` | scripts/auto_partner_ops.py:428 | launches follow the order of the queue |
| `Watchdog.Ops.Watch` | scripts/auto_partner_ops.py:516-548 | n turns of the main loop are n cycles |
| `EventStream.ChunkingIsIrrelevant` | scripts/run_p3_5_internal_final_closeout.py:369-394 | any division of a text into chunks gives the events and the rest of splitting the whole text at once, blank lines straddling chunks and runs of newlines included |
| `EventStream.DrainAppend` | scripts/run_p3_5_internal_final_closeout.py:375-376 | draining early and going on is draining everything at once |
| `EventStream.FrameRoundTrip` | src/taksitlio/api/routes/search_sessions.py:444 | a frame the server sends is read back as it was sent if and only if its JSON text is one line in the sense of splitlines; a keep-alive gives no event |
| `EventStream.StreamRoundTrip` | src/taksitlio/api/routes/search_sessions.py:436-460 | a whole rendered stream is read back if and only if every JSON text in it is one line |
| `EventStream.ChunkedRoundTrip` | scripts/run_p3_5_internal_final_closeout.py:369-394 | the round trip for a rendered stream cut into any chunks, with an empty buffer left |
| `EventStream.Reader.Take` | scripts/run_p3_5_internal_final_closeout.py:375-394 | the inner loop of the reader on one chunk |
| `EventStream.Reader.ReadAll` | scripts/run_p3_5_internal_final_closeout.py:371-394 | the outer loop reads up to the first empty chunk or until the time is over, and what it has read equals splitting that text at once |
| `EventStream.FirstBlank` | scripts/run_p3_5_internal_final_closeout.py:375-376 | where the buffer is cut is the first of its blank lines |
| `EventStream.DataBound` | scripts/run_p3_5_internal_final_closeout.py:380-386 | an event's data is never longer than the longest line, which is why a cut JSON text cannot come back whole |
| `StreamBlocks.BlockIs` | scripts/run_p3_5_internal_final_closeout.py:378-392 | a block is an event exactly if its last event line names a kind; the event has that kind, the id of the last id line and the data of the last data line |
| `StreamBlocks.SplitBreak` | scripts/run_p3_5_internal_final_closeout.py:380 | a line ends at its first break, CR LF being one, and the rest is split on its own |
| `StreamBlocks.SentIs` | src/taksitlio/api/routes/search_sessions.py:436-460 | the text of a stream frame by frame, and the events it is meant to carry |
| `GoldenProtocol.DualControlHolds` | scripts/run_p3_7_golden_human_closeout.py:605-724 | in every interleaving of any number of approval runs with different preparer and reviewer, the audit query finds nothing, and no row is approved more than twice |
| `GoldenProtocol.NoPrepareOnApproved` | scripts/run_p3_7_golden_human_closeout.py:626-638 | no run's stale prepare can match an approved row |
| `GoldenProtocol.RunKeepsInv` | scripts/run_p3_7_golden_human_closeout.py:625-690 | every step keeps the invariant that every captured version of an approved row is smaller than its version |
| `GoldenProtocol.ApprovalIsFinal` | scripts/run_p3_7_golden_human_closeout.py:674-690 | an approved row stays approved with the preparer it was approved with |
| `GoldenProtocol.SecondApprovalIff` | scripts/run_p3_7_golden_human_closeout.py:674-690 | main result: an approved row can be approved once more if and only if a run that has already started captured the version just below the approved one and names a reviewer other than the stored preparer |
| `GoldenProtocol.NoLateSession` | scripts/run_p3_7_golden_human_closeout.py:567-573 | whoever can approve an approved row after any further steps could do so at once, so no run started later ever can |
| `GoldenProtocol.SecondApprovalHappens` | scripts/run_p3_7_golden_human_closeout.py:674-690 | it does happen: a concrete interleaving of two runs that ends with two approvals of one row |
| `GoldenProtocol.StartKeepsInv` | scripts/run_p3_7_golden_human_closeout.py:567-573 | a run that starts captures no version of an approved row and none that is not current, so the invariant stays |
| `GoldenProtocol.PrepareKeepsInv` | scripts/run_p3_7_golden_human_closeout.py:625-649 | a prepare that matches keeps the invariant |
| `GoldenProtocol.ApproveKeepsInv` | scripts/run_p3_7_golden_human_closeout.py:674-690 | an approve that matches leaves the row with two different people and every captured version of it below its own |
| `GoldenProtocol.RowChanges` | scripts/run_p3_7_golden_human_closeout.py:626-690 | the only ways a row can change: a prepare by a session that captured its version, or an approve by one that captured the version before and names a reviewer other than the stored preparer; each with exactly its effect |
| `GoldenPolicy.EvaluatePolicyGap` | scripts/run_p3_7_golden_human_closeout.py:203-301 | the evaluator's counting per bucket string and then per label equals counting rows per label; gaps, weights and coverage follow |
| `GoldenPolicy.Table.PrepareAndApprove` | scripts/run_p3_7_golden_human_closeout.py:605-690 | both updates together approve the row, unless its stored version is zero or missing |
| `GoldenPolicy.Table.DualControlApprove` | scripts/run_p3_7_golden_human_closeout.py:551-735 | a run nobody interferes with approves, per label, the first rows in id order up to the gap and leaves every other row as it was; it reports min(gap, reviewable rows) per label; it refuses when preparer and reviewer are the same |
| `GoldenPolicy.ChosenCount` | scripts/run_p3_7_golden_human_closeout.py:596-602 | walking the rows with a decreasing need takes min(need, rows) of them |
| `GoldenPolicy.AgreementExact` | scripts/run_p3_7_golden_human_closeout.py:238-257 | re-evaluating after a run gives each gap less what the run reported, under every policy, if and only if every reviewable row is consistent: it has a version, and the evaluator files it under the run's label and no other |
| `GoldenPolicy.RerunCounts` | scripts/run_p3_7_golden_human_closeout.py:220-257 | whatever the buckets look like, approved counts rise by the approved rows the evaluator files under the label, and candidate counts stay |
| `GoldenPolicy.RunClosesGaps` | scripts/run_p3_7_golden_human_closeout.py:709-711 | with consistent rows a gap closes exactly when there are enough reviewable rows |
| `GoldenPolicy.CoverageNeverFalls` | scripts/run_p3_7_golden_human_closeout.py:268 | demand coverage is in [0, 1] and a run never lowers it |
| `GoldenCounts.RowWeighs` | scripts/run_p3_7_golden_human_closeout.py:207-229 | a further row raises the eligible weight by its demand weight, or by its expected one where it has none, or by 1 where the weight is missing or zero, and the approved weight by as much exactly if its status is APPROVED |
| `GoldenCounts.CoverageIsShare` | scripts/run_p3_7_golden_human_closeout.py:268 | the coverage is the approved share of a positive eligible weight, and zero otherwise |
| `GoldenCounts.RowCounts` | scripts/run_p3_7_golden_human_closeout.py:205-228 | a further row raises the approved or candidate count of exactly the labels that its text names, read from the first of the three places that is not missing, for the statuses that count |
| `GoldenCounts.RowAwaits` | scripts/run_p3_7_golden_human_closeout.py:590-600 | the approval run counts a row waiting for review under the first label, in policy order, that its text names, read from the first of the three places that is not empty |
| `GoldenCounts.LineMeans` | scripts/run_p3_7_golden_human_closeout.py:243-257 | the gaps of a report line are what is missing to the policy minimum |
| `GoldenCounts.ApprovedRowIs` | scripts/run_p3_7_golden_human_closeout.py:626-690 | of what the evaluator and later runs read, a row that the run approves changes only its status, its two people and its version, which rises by two |
| `GoldenPolicy.PlainBucketIsConsistent` | scripts/run_p3_7_golden_human_closeout.py:205-211 | a non-empty bucket that names one label makes a row consistent |
| `GoldenPolicy.InconsistentRows` | scripts/run_p3_7_golden_human_closeout.py:590-600 | two rows that are not: an empty bucket that hides the source signal from the evaluator only, and a bucket that names two labels |
| `GoldenPolicy.FirstLabel` | scripts/run_p3_7_golden_human_closeout.py:596-600 | the run files a row under the first label in policy order that its bucket matches, and under none only if none matches |
| `GoldenCandidates.TakeNew` | scripts/run_p3_7_golden_human_closeout.py:463-537 | the loop over the utterances of a label takes the first ones with new keys, min(quota, number of new keys) of them, with distinct keys not seen before |
| `GoldenCandidates.Materialize` | scripts/run_p3_7_golden_human_closeout.py:451-537 | for all labels in order: the table grows by the inserted rows at its end and by nothing else, batch by batch as each label asks, and as computed from the table and the utterances beforehand |
| `GoldenCandidates.NoDuplicates` | scripts/run_p3_7_golden_human_closeout.py:467-471 | no key is inserted twice across labels, nor one the table had |
| `GoldenCounts.TakeOneMore` | scripts/run_p3_7_golden_human_closeout.py:464-471 | utterances are taken in order, each exactly if the quota is not reached and neither the table nor an earlier utterance has its key |
| `GoldenCounts.InsertionDilutes` | scripts/run_p3_7_golden_human_closeout.py:486-520 | every inserted candidate adds one to the eligible weight and nothing to the approved one, so inserting never raises the coverage |
| `GoldenCandidates.NameMatchesOnce` | scripts/run_p3_7_golden_human_closeout.py:128-138 | the bucket a candidate is inserted with names its own label and no other |
| `GoldenCandidates.InsertionEffect` | scripts/run_p3_7_golden_human_closeout.py:486-527 | inserting raises candidates and reviewable rows of a label by its batch and opens no approval gap |
| `GoldenCandidates.PipelineCloses` | scripts/run_p3_7_golden_human_closeout.py:994-1013 | materialise, evaluate, approve, evaluate: the gap of a label closes if and only if it is at most its reviewable rows plus min(quota, number of new keys offered for it), all read before the run |
| `GoldenCandidates.EnoughUtterances` | scripts/run_p3_7_golden_human_closeout.py:451-460 | where all candidates can be reviewed, as many new utterances as the quota asks for are enough |
| `GoldenCandidates.ParkedCandidatesBlock` | scripts/run_p3_7_golden_human_closeout.py:451-460 | candidates that cannot be reviewed can fill the candidate gap, so that nothing is inserted and the approval gap stays open |
| `ResidualCodes.AssignCauses` | evaluation/p17_v3_residual_export.py:151-246 | the primary and secondary causes together are the symptoms of the reply, strictly in order of priority |
| `ResidualCodes.Deduplicate` | evaluation/p17_v3_residual_export.py:236-242 | the deduplication keeps every cause once, in the order of the first occurrences |
| `ResidualCodes.ExportRow` | evaluation/p17_v3_residual_export.py:646-746 | one reply becomes one row with the specified status, flags and causes; it fails exactly on JSON that is truthy and no object |
| `ResidualCodes.Export` | evaluation/p17_v3_residual_export.py:631-747 | the export of all samples succeeds exactly if none of them fails |
| `ResidualCodes.NoCauseIffModelOk` | evaluation/p17_v3_residual_export.py:703-719 | the stored primary cause is missing exactly when the reply matches the annotation, and then so are the secondary ones |
| `ResidualCodes.StoredCausesRanked` | evaluation/p17_v3_residual_export.py:210-246 | secondary causes are distinct and of lower priority than the primary one; neither QUANT nor MATCHER is ever stored; every primary cause is either a model or a runtime cause |
| `ResidualCodes.FailureHasCause` | evaluation/p17_v3_residual_export.py:187-234 | no failing reply is left without a cause |
| `ResidualCodes.ModelOkMeans` | evaluation/p17_v3_residual_export.py:187-197 | the verdict in terms of the annotation: equal positive and negative sets that do not overlap, all corrections found, status ok, nothing forbidden |
| `ResidualVerdicts.RowCausesAre` | evaluation/p17_v3_residual_export.py:210-246 | the stored causes in full, in terms of the reply and the annotation: none if the reply matches, and otherwise, primary first, the timeout, the truncation, the missing object and the schema failure of the call, the forbidden field, the hallucination, the conflict and the silence of the profile, and the missing corrections, positives and negatives and the excess of its content |
| `ResidualVerdicts.RowFlagsAre` | evaluation/p17_v3_residual_export.py:169-208 | the eight stored flags in the same terms, with what a correction without text asks for |
| `ResidualVerdicts.RowStatusIs` | evaluation/p17_v3_residual_export.py:640-746 | when a row has which status, and what it stores of the reply |
| `ResidualMetrics.ComputeMetrics` | evaluation/p17_v3_residual_export.py:433-501 | the accumulating loop computes the metrics of the rows |
| `ResidualMetrics.CountersConserve` | evaluation/p17_v3_residual_export.py:453-461 | per channel, hits plus misses are the size of the annotations and hits plus extras the size of the replies |
| `ResidualMetrics.NoMissesIffNoFlag` | evaluation/p17_v3_residual_export.py:182-184 | a channel's miss counter is zero exactly when no row carries the coder's miss flag for it |
| `ResidualMetrics.FullRecallIffNoFlag` | evaluation/p17_v3_residual_export.py:486 | recall is one exactly then, if the channel has annotations at all |
| `ResidualMetrics.RatesAreShares` | evaluation/p17_v3_residual_export.py:480-501 | every rate lies in [0, 1] |
| `ResidualMetrics.PercentileBetween` | evaluation/p17_v3_residual_export.py:504-515 | the interpolated percentile lies between the smallest and the largest value |
| `ResidualMetrics.PercentileMonotone` | evaluation/p17_v3_residual_export.py:504-515 | it is monotone in p, across ranks |
| `ResidualMetrics.PercentilePermutes` | evaluation/p17_v3_residual_export.py:507 | it does not depend on the order of the values |
| `ResidualMetrics.MedianBelowP95` | evaluation/p17_v3_residual_export.py:499-500 | the reported P50 never exceeds the reported P95 |
| `ResidualFigures.RatesAre` | evaluation/p17_v3_residual_export.py:454-493 | every recall is the share of hits in what the annotations ask for, every precision in what the replies offer, and the two false rates pool the positive and the negative channel |
| `ResidualFigures.CountsAre` | evaluation/p17_v3_residual_export.py:464-498 | the other rates and counts are numbers of rows with a flag, and the accuracy on empty annotations the share of empty replies among them |
| `ResidualFigures.PercentileIs` | evaluation/p17_v3_residual_export.py:504-515 | the percentile is the interpolated value at the position (n - 1) p / 100 of the ascending values |
| `ResidualFigures.MedianIs` | evaluation/p17_v3_residual_export.py:499 | the reported P50 is the middle latency or the mean of the two middle ones |
| `ResidualFigures.P95Is` | evaluation/p17_v3_residual_export.py:500 | the reported P95 lies at 19 twentieths of the last rank |
| `ResidualTargets.TargetsWithinBudget` | evaluation/p17_v3_residual_export.py:544-565 | for every multiset of failing patterns the targets sum to at most 2000, every target is above 20, and a pattern has one exactly if it occurs among the failures or is known to be hard |
| `ResidualTargets.ScaledSum` | evaluation/p17_v3_residual_export.py:563-565 | when scaled down, the targets use all but fewer than eight examples and each is the plain quotient: the floor of 20 never decides |
| `ResidualTargets.BasesSum` | evaluation/p17_v3_residual_export.py:554-561 | before scaling the targets sum to at most 2644 |
| `ResidualTargets.CountsSum` | evaluation/p17_v3_residual_export.py:545-551 | every counted pattern belongs to one of the eight |
| `ResidualTargets.RoundingError` | evaluation/p17_v3_residual_export.py:557 | rounding half to even is off by at most a half |
| `ResidualTargets.BuildFailurePatterns` | evaluation/p17_v3_residual_export.py:518-580 | the loops compute the specified counters, targets and hint; a cause is counted as often as rows have it, a pattern as often as rows show it, and among failing rows as often as failing rows show it |
| `ResidualTargets.CausePatternsMean` | evaluation/p17_v3_residual_export.py:525-533 | a cause is listed exactly if a row has it, with exactly the patterns that rows with this cause show, each once |
| `ResidualTargets.FailTotals` | evaluation/p17_v3_residual_export.py:545-551 | the failing-pattern counter of a pattern is how often failing rows show it, a row without patterns counting as OTHER |
| `ResidualTargets.CauseTotals` | evaluation/p17_v3_residual_export.py:524-531 | counting causes counts the failing rows with such a cause |
| `ResidualTargets.HintOnExport` | evaluation/p17_v3_residual_export.py:582-600 | on every export model and runtime weights add up to the failing rows, the matcher weighs nothing, and the serving fix is chosen exactly when runtime causes outnumber model causes |
| `ResidualFigures.WeightsAre` | evaluation/p17_v3_residual_export.py:583-585 | for any rows the three weights are the numbers of rows whose primary cause is one of the eight model causes, one of the four runtime causes, or the matcher |
| `ResidualFigures.NextStepIs` | evaluation/p17_v3_residual_export.py:582-600 | on every export the serving fix is chosen exactly if more rows fail with one of the four runtime causes than with one of the eight model causes |
| `ResidualFigures.NextStepOfAny` | evaluation/p17_v3_residual_export.py:586-593 | for any rows the largest weight decides, ties go to training and the runtime causes beat the matcher |
| `ResidualFigures.BaseIs` | evaluation/p17_v3_residual_export.py:551-565 | the target of a pattern: its share of 2000 examples, rounded, but at least 40, and 80 for the two hard patterns that no failing row shows; unscaled while the targets fit into the budget |
| `ResidualFigures.NearestIs` | evaluation/p17_v3_residual_export.py:557 | rounding gives the nearest integer, and the even one of two that are equally near |
| `ResidualReview.WriteReviewQueue` | evaluation/p17_v3_residual_postprocess.py:361-391 | every row is marked in place with its own confidence, need and reason, passing rows draw in order, and the queue lists exactly the marked rows in order |
| `ResidualReview.FailingReviewedIffLow` | evaluation/p17_v3_residual_postprocess.py:72-114 | a failing row is queued exactly when its confidence is low, whatever is drawn; the reason low_confidence is never given |
| `ResidualFigures.MarkIs` | evaluation/p17_v3_residual_postprocess.py:72-114 | which rows are marked for review, with which confidence and reason: the eight causes that are always reviewed, two secondary causes or more, and the draws of the passing rows, numbered by the passing rows before |
| `ResidualReview.ValidateEnd` | evaluation/p17_v3_residual_postprocess.py:140-281 | each of the nine checks passes exactly when what it looks for holds, and the verdict is their conjunction |
| `ResidualFigures.ChecksAre` | evaluation/p17_v3_residual_postprocess.py:147-262 | what eight of the checks look for, field by field: the number of rows with no skipped row failing, raw replies everywhere, no failure shown without a cause, QUANT nowhere, the stored cause counts those of the rows, the four summary keys, and a positive target |
| `ResidualFigures.MetricsCheckIs` | evaluation/p17_v3_residual_postprocess.py:202-232 | stored metrics pass exactly if six rates differ by less than a billionth from those of the rows and the two counts are equal |
| `ResidualReview.Accounting` | evaluation/p17_v3_residual_postprocess.py:147-160 | success, failed and skipped counters cover every row once, skipped failing rows twice |
| `ResidualReview.ExportValidates` | evaluation/p17_v3_residual_postprocess.py:158-281 | the validator accepts the artifacts of every export |
| `CatalogSync.Catalog.SyncFeeds` | scripts/complete_catalog_gaps.py:45-162 | the buffered pass with its flushes at 500 and its final flush leaves every product as if merged with its feed row on its own, and others alone; it fails exactly where a brand or image field is truthy and no text; the update counter counts the products that did not hold every offered value |
| `CatalogSync.Catalog.Flush` | scripts/complete_catalog_gaps.py:114-139 | flushing changes no product as it will finally be, and leaves every buffer below its limit |
| `CatalogSync.CollectStep` | scripts/complete_catalog_gaps.py:67-112 | collecting one row puts its product, and no other, on the way to its target |
| `CatalogSync.MergeAttributes` | scripts/complete_catalog_gaps.py:83-101 | for every key the last usable value offered wins over the stored one; changed is reported exactly if some offered value was not held |
| `SyncOutcomes.SyncedManufacturer` | scripts/complete_catalog_gaps.py:105-107 | a product that has a manufacturer keeps it; otherwise it gets the first 256 characters of the stripped brand, if there is one |
| `SyncOutcomes.SyncedImage` | scripts/complete_catalog_gaps.py:109-134 | the pending image becomes the stripped image address exactly if that begins with http and the product's image is not READY, and stays otherwise |
| `SyncOutcomes.SyncedAttribute` | scripts/complete_catalog_gaps.py:84-101 | an attribute after a sync: the last nested value of its key that is not blank, or else the top-level value of the six shared fields if it is neither blank nor the word null, or else what it was |
| `SyncOutcomes.SyncedRest` | scripts/complete_catalog_gaps.py:72-76 | the feed row is found by merchant and external id, and nothing else of a product changes |
| `SyncOutcomes.RewritesIff` | scripts/complete_catalog_gaps.py:83-104 | the update counter counts a product exactly if its attributes change or its feed row offers two values for one key |
| `SyncOutcomes.FailsOn` | scripts/complete_catalog_gaps.py:105-109 | a feed row makes the pass fail exactly if its brand or image is truthy and no text |
| `CatalogSync.SyncTwice` | scripts/complete_catalog_gaps.py:84-112 | a second sync changes no attribute, manufacturer or pending image, even where fields disagree |
| `CatalogSync.SecondSyncWritesIffConflict` | scripts/complete_catalog_gaps.py:90-104 | yet it writes the attributes again exactly if the feed row offers two values for a key |
| `CatalogSync.ConflictIsDisagreement` | scripts/complete_catalog_gaps.py:94-101 | which means a usable top-level and a usable nested field of one name disagree |
| `CatalogIntegrity.Table.EnforceQuarantine` | scripts/enforce_catalog_integrity.py:151-212 | both statements over the whole table, row by row, with their row counts; every active product is counted by exactly one of them |
| `CatalogIntegrity.Table.Rescore` | scripts/complete_catalog_gaps.py:290-327 | both statements of the re-scoring, row by row, with their row counts |
| `CatalogIntegrity.EnforcedIsExact` | scripts/enforce_catalog_integrity.py:154-211 | an active product ends READY without a block exactly if it has a category and a READY primary asset with a CDN URL, otherwise QUARANTINED with a block; nothing else of it changes, and inactive products do not change |
| `CatalogIntegrity.BlockIsExact` | scripts/enforce_catalog_integrity.py:159-177 | the stored reason names both defects only if the metadata has a media status that is not READY |
| `CatalogIntegrity.EnforceIdempotent` | scripts/enforce_catalog_integrity.py:151-212 | enforcing twice is enforcing once |
| `CatalogIntegrity.RescoreThenEnforce` | scripts/complete_catalog_gaps.py:293-330 | re-scoring first does not change what enforcing leaves |
| `CatalogIntegrity.EnforceThenRescore` | scripts/complete_catalog_gaps.py:293-312 | re-scoring afterwards undoes the quarantine of exactly the products with an offer and image evidence but no category or no servable image |
| `CatalogIntegrity.RescoredReady` | scripts/complete_catalog_gaps.py:313-327 | after re-scoring a READY product without image evidence is exactly one that was READY before and has neither media status nor READY asset |
| `IntegrityOutcomes.RescoreLeaves` | scripts/complete_catalog_gaps.py:293-327 | the whole effect of re-scoring: with evidence of an image an active product that has an offer becomes READY, without evidence a READY one whose media status is known becomes PARTIAL, and nothing else changes |
| `IntegrityOutcomes.EnforceLeaves` | scripts/enforce_catalog_integrity.py:151-211 | the whole effect of enforcing, in terms of the columns and the linked assets |
| `ImageBackfill.CountersAddUp` | scripts/backfill_product_images.py:160-283 | in every interleaving: with the lock free, done is the sum of the four outcomes; no more workers hold a permit than there are; the table has one row per hash and every known hash is in it |
| `ImageBackfill.EndCountsAll` | scripts/backfill_product_images.py:283-284 | when all workers have ended, done is the number of rows, no_url is the number of rows without an image URL, and every permit is back |
| `ImageBackfill.RunKeepsInv` | scripts/backfill_product_images.py:163-281 | every step of every worker keeps the invariant: each of the four counters is the number of workers counted under that outcome, permits are conserved, the lock has one holder |
| `ImageBackfill.StepsRunOut` | scripts/backfill_product_images.py:163-281 | every step that changes anything brings the end closer |
| `ImageBackfill.NoDeadlock` | scripts/backfill_product_images.py:160-174 | until all workers have ended some worker can run |
| `ImageBackfill.StuckMeansDone` | scripts/backfill_product_images.py:283-284 | a state in which nothing can change has every product counted |
| `ImageBackfill.UpsertKeeps` | scripts/backfill_product_images.py:197-212 | the upsert keeps one row per hash and adds at most the new hash |
| `ImageBackfill.UrlNeverLost` | scripts/backfill_product_images.py:209 | an asset that has a CDN URL never loses it to an upsert without one |
| `BackfillOutcomes.EndCounts` | scripts/backfill_product_images.py:267-281 | the final counters are the numbers of workers that stored a READY image, stored another one, failed, and had no URL |
| `BackfillOutcomes.CallEnds` | scripts/backfill_product_images.py:174-281 | a call that raises makes its worker report a failure and leaves everything else alone; one that returns leads to the next call, and the upsert writes the draft |
| `BackfillOutcomes.UpsertIs` | scripts/backfill_product_images.py:196-211 | the upsert updates the row with the hash, or adds one: the status is the new one, the CDN URL too if there is one |
| `TurkishPrice.AmountReadsBack` | scripts/fetch_live_merchant_feeds.py:134-143 | every way of writing an amount of kurus (grouped or not, with decimals or for whole lira, TL or the lira sign on either side, blanks around) is read back as exactly that amount by both parsers |
| `TurkishPrice.GroupIsGrouped` | scripts/fetch_live_merchant_feeds.py:136 | a number of at least 1000 grouped by dots matches the pattern of either parser |
| `TurkishPrice.GroupValue` | scripts/fetch_live_merchant_feeds.py:137 | removing the dots keeps the value |
| `TurkishPrice.CleanWritten` | scripts/fetch_live_merchant_feeds.py:135 | removing blanks and currency signs leaves the digits |
| `PricePatterns.GroupedIs` | scripts/fetch_live_merchant_feeds.py:136 | the price parser's pattern matches exactly one to three digits, one group or more of a dot and three digits, and at most one comma with at least one digit behind it |
| `PricePatterns.HasGroupIs` | scripts/fetch_public_campaigns.py:103 | the campaign script's pattern matches exactly the texts with a digit, a dot and three digits anywhere |
| `PriceAgreement.ParsersAgreeIff` | scripts/fetch_public_campaigns.py:101-107 | main result: on every text the two parsers agree if and only if their patterns judge its dots alike, or it has two commas or more, or it has one dot, no comma and no digit but zeros |
| `PriceAgreement.GroupedHasGroup` | scripts/fetch_live_merchant_feeds.py:136 | where the price parser's pattern matches, the campaign script's matches too |
| `PriceAgreement.DotsMatter` | scripts/fetch_public_campaigns.py:103-106 | with and without its dots a text that has a group reads the same exactly in the last two cases |
| `PriceAgreement.SameMarks` | scripts/fetch_public_campaigns.py:102 | dropping percent signs changes no digit and no separator |
| `TurkishPrice.PointDisagreement` | scripts/fetch_public_campaigns.py:103 | what the two parsers make of every positive amount with a point and more than three decimals: one reads it as written, the other as a whole number |
| `PriceAgreement.ReadDifferently` | scripts/fetch_public_campaigns.py:101-107 | every text, cleaned, whose dots only the second pattern takes for group marks and matter is read differently |
| `PriceAgreement.ThreeDecimals` | scripts/fetch_live_merchant_feeds.py:136 | 12345.678 is such a text |
| `PriceAgreement.TrailingWord` | scripts/fetch_live_merchant_feeds.py:136 | so is 1.299 followed by a blank and a dollar sign |
| `JsonLdWorklist.Walk` | scripts/fetch_via_crawl4ai.py:120-133 | the walk over the list that grows while it is walked ends on every finite value, visits exactly the multiset the recursive flattening gives, and fails exactly if an ItemList it reaches cannot be iterated |
| `JsonLdWorklist.Append` | scripts/fetch_via_crawl4ai.py:126-128 | the inner loop appends exactly the listed items that are objects |
| `JsonLdWorklist.ElementsSmaller` | scripts/fetch_via_crawl4ai.py:125-129 | an ItemList is bigger than the items it lists, the measure of the walk |
| `JsonLdWorklist.FlattenHoldsLeaves` | scripts/fetch_via_crawl4ai.py:122-129 | the flattening holds only objects that are no ItemLists |
| `JsonLdReach.WalkReaches` | scripts/fetch_via_crawl4ai.py:120-133 | main result: the walk fails exactly if a value it starts with reaches, through lists of items, a list whose elements are true or a nonzero number; otherwise it visits exactly the objects that such a value reaches and that are no lists |
| `JsonLdReach.FlattenReaches` | scripts/fetch_via_crawl4ai.py:122-129 | the flattening of a value holds exactly the objects it reaches that are no lists |
| `JsonLdReach.ListsIs` | scripts/fetch_via_crawl4ai.py:122-128 | what a list lists: the objects under the last item key of the objects in the array under its last itemListElement key |

## Left out

- CapHolds.OvershootIsExact: where every source has a crawler and the least blind ones have limits below the cap, or where limits are smaller than blind spots, the largest total is bounded but not computed; whether the cap itself holds is decided in all cases (`CapHolds.CapHoldsIff`).
- CrawlBudget.AbsoluteCap: the stored `count` of a feed is taken to be its number of rows, as `write_feed` writes it; reading a hand-edited count is not modelled.
- CrawlBudget.FinishWithinCap: reading the room and writing the truncated result are one step; the script returns from the fetcher in between.
- CrawlBudget.NextIsLocal: a source has one crawler; two processes on the same source are not modelled.
- VatanPages.FetchVatan: the method takes what the other crawlers do as an arbitrary sequence of readings; only its single turns are proved to be steps of the shared protocol.
- CrawlBudget.NextKeepsInv: the sitemap and crawl4ai crawlers may save after any result in the protocol, where the scripts do so at the end of a batch or at a multiple of 150; the exact run uses only the latter.
- Other writers of the feed directory: `fetch_decathlon`, which never consults the cap, `fetch_koctas`, which reads it once before its only write, and the crawl of scripts/fetch_via_crawl4ai.py, which compares the total with the cap once per merchant and then writes up to its own limit; and `resolve_run_limit`, which returns 0 both for stop and for uncapped.
- Watchdog.Ops.Watch: ingest, backfill, gap-filling and learning jobs of the main loop, the target check and the state file; they do not touch the modelled state.
- EventStream.ChunkedRoundTrip: characters, not bytes: UTF-8 decoding of split characters, a read that raises, and the parsing of the JSON payload.
- GoldenProtocol.DualControlHolds: other writers to the golden table, and the history rows and Python counters, which advance even if an update matches nothing.
- GoldenPolicy.EvaluatePolicyGap: the rounding of coverage to six digits, and merchant and category scope coverage.
- GoldenPolicy.FirstLabel: only ASCII letters are lower-cased; no other character lower-cases into a needle.
- GoldenCandidates.Materialize: the search call behind each insertion, and how utterances are anonymised, normalised and sorted into buckets; texts come with their keys.
- ResidualCodes.ExportRow: how concepts are read and folded; views are given as sets. The hybrid bag stored for later attribution.
- ResidualMetrics.PercentileBetween: p outside [0, 100], which no caller passes.
- ResidualTargets.BuildFailurePatterns: example ids and example utterances.
- ResidualReview.WriteReviewQueue: the random generator is an arbitrary stream of draws.
- CatalogSync.Catalog.SyncFeeds: the table after a failing row is left open, and stored attributes are taken to be an object.
- CatalogIntegrity.Table.EnforceQuarantine: timestamps.
- ImageBackfill.CountersAddUp: cancellation of workers, image variants and links, and what the known hashes do to the image check.
- TurkishPrice.AmountReadsBack: Unicode digits other than the ASCII ones.
- PriceAgreement.ParsersAgreeIff: likewise; its texts are any characters, of which only the ASCII digits count as digits.
- JsonLdWorklist.Walk: the parsing of each visited object, and the HTML part of the listing.
- All HTTP, browser, database, object-storage, subprocess and systemd plumbing, and all HTML scraping.
- Report writers, Markdown output, probe scripts, golden-suite generators and the boolean gate tables of the closeout scripts.
- The conversation state manager, matcher and ranking: their code is not part of this model.
