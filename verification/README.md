# moku: verified models

moku crawls, fetches, versions, filters and diffs web pages. This project models the
algorithms and protocols that sit around its HTTP and SQL calls, one module a component,
and proves what they promise. Code that changes things step by step is a method or a class
proved against a specification function; concurrent code is a transition system whose
actions are the atomic steps of one goroutine, so that every interleaving is a run; code
that only computes is functions. Where a promise fails, a lemma gives the input and another
says exactly when the promise holds.

- `Glob`, `FuzzyGlob`, `GlobOverlap`: the iterative glob matcher that remembers only the last
  star, the greedy `**` matcher on top of it, and when that one decides what a pattern means.
  A string is a sequence of bytes, one `char` each.
- `FetchPipeline`: feeder, workers, collector, batcher and progress counters over bounded
  channels, with cancellation and a pending commit of the tracker.
- `Tracker`: the begin, add, finalize, cancel protocol, single and batch commits, HEAD, the
  diff cache and the version history.
- `TextDiff`, `Headers`: the positional body diff and the header normalisation and diff.
  `Text` holds white space, lower case and sorting as these files use them.
- `Spider`: the breadth-first crawl with its depth limit and its page cap.
- `SiteCatalog`: the lazily built component bundles with deletable per-site locks.
- `Jobs`: the job table, the life of a job, deleting a website and closing.
- `Broker`: the event broker with buffered subscribers.
- `FilterConfig`, `FilterApply`: merging and deciding with filter rules, and the status
  machine of the endpoints with its 500-row batches.
- `DomDiff`: the per-tag numbering and the recursive tree diff of the frontend.

## What is assumed

- Library calls are fixed functions or parameters. The tracker's `Env` gives the path of a
  URL, the edit script of two texts and the normalised headers; an edit script is only
  assumed to spell base with its equal and deleted texts and head with its equal and
  inserted ones, and a header diff to be one of the normalised headers
  (`Tracker.KeepsPromises`). The spider's `Site` gives the raw links of a page and the
  normalised page of a link. `Library` gives glob matching, the file extension of a URL and
  number parsing.
- A call that can fail is given its outcome as a parameter (`dbOk`, `failing`, `succeeds`)
  or has one action for each outcome, so a lemma covers all of them.
- SQL tables are sequences of rows, a transaction is a buffer that is appended or dropped,
  and a `SELECT` without an order may list its rows in any order. An SQL operation fails
  once its context is canceled. One write transaction is open at a time; after a failed
  commit the handle keeps it until `CancelCommit`.
- White space and letter case are those of ASCII.

## Where the code and its documentation differ

- The comment on the patterns keeps `*` within a path segment; the star of the matcher crosses
  slashes (`Glob.StarCrossesSlash`). It keeps within segments exactly on strings without a
  slash, and exactly for patterns without a star (`Glob.SegmentsOnString`,
  `Glob.SegmentsOnPattern`).
- The matcher compares literally before it looks for a star, so a `*` in the *string*
  consumes a `*` of the pattern one for one (`Glob.ExactOnString`, `Glob.ExactOnPattern`).
- The parts of a `**` pattern may share bytes of the string, so `ab**bc` accepts `abc`
  (`FuzzyGlob.OverlapIsAccepted`); a pattern without single stars means what it accepts
  exactly when no part can share bytes with the first or the last one
  (`GlobOverlap.ExactWhenApart`).
- After a middle part with a star the cursor can be past the end of the string, where slicing
  panics: `**ab*c**d**` on `abc` (`FuzzyGlob.StarredMiddleSlicesOutOfRange`). Some string
  panics the search exactly when a part is searched for after one with a star
  (`FuzzyGlob.NeverPanicsExactly`, `FuzzyGlob.GlobPanicsExactly`).
- White-space edits leave no chunk, so a body diff can lose them (`TextDiff.DroppedEditIsLost`,
  `TextDiff.SurplusZeroDecidesNothing`).
- A fetch whose batcher meets a tracker error while pages are still coming hangs until its
  context is canceled (`FetchPipeline.DeadlockIsReachable`,
  `FetchPipeline.StuckExactlyWhenStarved`).
- After the SQL commit of `FinalizeCommit` a failing read or HEAD write reports an error
  although the version is committed (`Tracker.SQLiteTracker.FinalizeCommit`).
- The catalog promises that a site is built by one goroutine at a time; an eviction while a
  call still waits for a deleted lock breaks this (`SiteCatalog.EvictionLetsTwoBuild`); which
  evictions are harmless is `SiteCatalog.SafeEvictionExactly`.
- A commit closure that panics after recording its result turns a done job into a failed
  one (`Jobs.CommitPanicRewritesHistory`, `Jobs.LifeCycleExactlyWhenNoRelapse`).
- The comment on merging gives later configurations precedence; the code unites the lists, and
  of two rules with the same id it keeps the first (`FilterConfig.EarlierRuleWins`,
  `FilterConfig.FirstRuleIsKept`). A later configuration has its way exactly when no earlier
  rule has the id of one of its rules and differs from it
  (`FilterConfig.LaterTakesPrecedenceExactly`).
- Applying the rules is to let removed rules take effect; when none is left it returns before
  the reset, so what was filtered stays so (`FilterApply.RemovedRuleLingers`,
  `FilterApply.AppliesExactly`).
- Marking endpoints as failed lacks the guard the other markings have and takes an endpoint
  out of the filtered state (`FilterApply.FilteredStays`, `FilterApply.FailedOverridesFiltered`).

## Model

| member | source | states |
|---|---|---|
| Glob.SimpleGlobMatch | internal/filter/matchers.go:132-164 | the loop over four indices decides what the two-way scan with its last star decides, and goes round exactly as often as counted |
| Glob.IterationsQuadratic | internal/filter/matchers.go:137-156 | the loop ends within (pattern length + 1) * (pattern length + string length + 1) iterations, for all inputs |
| Glob.StarIsAnyString | internal/filter/matchers.go:142-146 | in the meaning the matcher is measured by, a star stands for any string, also the empty one |
| Glob.ScanIsSound | internal/filter/matchers.go:132-164 | a match that is reported is one, for every pattern and every string |
| Glob.EarliestPlacement | internal/filter/matchers.go:142-151 | forgetting all stars but the last loses no match when every earlier literal was consumed one for one |
| Glob.ScanIsExact | internal/filter/matchers.go:132-164 | the matcher agrees with the recursive meaning of `*` and `?` whenever pattern or string has no star |
| Glob.ExactOnString | internal/filter/matchers.go:138-146 | the matcher is exact on a string for all patterns if and only if the string has no star |
| Glob.ExactOnPattern | internal/filter/matchers.go:138-146 | the matcher is exact for a pattern on all strings if and only if the pattern has no star |
| Glob.SegmentStar | internal/filter/matchers.go:48 | in the meaning the comment gives, a star stands for any string without a slash |
| Glob.StarCrossesSlash | internal/filter/matchers.go:48 | `*` matches `/`, which that meaning excludes |
| Glob.SegmentsOnString | internal/filter/matchers.go:46-50 | the matcher agrees with the meaning by segments on a string, for all patterns, if and only if the string has no slash (and no star) |
| Glob.SegmentsOnPattern | internal/filter/matchers.go:46-50 | and for a pattern, on all star-free strings, if and only if the pattern has no star |
| FuzzyGlob.Split | internal/filter/matchers.go:78-80 | splitting at `**` gives at least one part, and joining the parts with `**` gives the pattern back |
| FuzzyGlob.IndexOfGlobPattern | internal/filter/matchers.go:186-197 | the window loop with its whole-string fallback computes the first window, else 0 on a whole match, else -1 |
| FuzzyGlob.WindowFromIsFirst | internal/filter/matchers.go:187-191 | the window found is a hit, no earlier one is, and -1 means there is none |
| FuzzyGlob.IndexMeaning | internal/filter/matchers.go:186-197 | on a star-free string a part is found at the first window of its length that it matches, without one at 0 if it matches the whole string, and else not at all |
| FuzzyGlob.FuzzyPathMatch | internal/filter/matchers.go:94-129 | the method with its moving cursor computes prefix check, suffix check and greedy search, including where slicing would panic |
| FuzzyGlob.PrefixMeaning | internal/filter/matchers.go:167-173 | the prefix check accepts exactly the strings some prefix of which matches |
| FuzzyGlob.SuffixMeaning | internal/filter/matchers.go:176-182 | the suffix check accepts exactly the strings some suffix of which matches |
| FuzzyGlob.PlacedPointwise | internal/filter/matchers.go:114-126 | a placement of the middle parts is one that fits every part where it is put and starts each no earlier than the one before it ends |
| FuzzyGlob.GreedySearch | internal/filter/matchers.go:114-126 | for star-free middle parts the greedy search never slices out of range and succeeds if and only if some in-order, non-overlapping placement exists |
| FuzzyGlob.FuzzyPathMeaning | internal/filter/matchers.go:94-129 | for star-free middle parts and a star-free string the match is true if and only if the first part matches a prefix, the last a suffix, and the middle parts can be placed |
| FuzzyGlob.SearchMeaning | internal/filter/matchers.go:114-126 | whatever stars the middle parts hold, the search succeeds on a star-free string if and only if they are found one after the other |
| FuzzyGlob.FuzzyPathAccepts | internal/filter/matchers.go:94-129 | what any `**` pattern accepts among the star-free strings: a prefix, a suffix, and the middle parts found in turn |
| FuzzyGlob.OneMiddlePart | internal/filter/matchers.go:114-126 | `**part**` accepts a star-free string if and only if the part matches a window of its length or the whole string |
| FuzzyGlob.GlobAcceptsMeaning | internal/filter/matchers.go:67-91 | every star-free string that matches with `**` read as any string is accepted |
| FuzzyGlob.OverlapIsAccepted | internal/filter/matchers.go:99-112 | the converse fails: `ab**bc` accepts `abc` (exactly when it holds is `GlobOverlap.ExactWhenApart`) |
| GlobOverlap.ExactWhenApart | internal/filter/matchers.go:94-129 | a pattern without single stars accepts exactly what it means, on all star-free strings, if and only if no part can share bytes with the first or the last part |
| FuzzyGlob.IndexStaysInside | internal/filter/matchers.go:121-125 | a found part ends inside every string if and only if it has no star |
| FuzzyGlob.NeverPanicsExactly | internal/filter/matchers.go:114-126 | the search slices inside every string if and only if no part is searched for after one with a star |
| FuzzyGlob.GlobPanicsExactly | internal/filter/matchers.go:74-129 | without such a part no match panics; with one, a pattern that begins and ends with `**` panics on some string |
| FuzzyGlob.StarredMiddleSlicesOutOfRange | internal/filter/matchers.go:116-126 | `**ab*c**d**` panics on `abc` |
| FetchPipeline.StepKeepsInv | internal/fetcher/fetcher.go:153-458 | every step of every goroutine keeps the invariants of control, channels, counters, verdict, conservation and store, and that nothing is committed before all URLs are handed on |
| FetchPipeline.RunsAreBounded | internal/fetcher/fetcher.go:153-458 | every run, whatever the interleaving, has at most 8 * urls + workers + 17 steps |
| FetchPipeline.NoDeadlock | internal/fetcher/fetcher.go:278-457 | with a worker, while the fetch is not over and the batcher's tracker calls succeeded or the context is canceled, some goroutine can step, and without needing a failure if the tracker cooperates |
| FetchPipeline.StuckExactlyWhenStarved | internal/fetcher/fetcher.go:232-240 | a reachable state is stuck if and only if the batcher left after a tracker error while workers wait to send it pages |
| FetchPipeline.DeadlockIsReachable | internal/fetcher/fetcher.go:232-240 | such a state is reachable with one page and a failing BeginCommit |
| FetchPipeline.UrlsAreConserved | internal/fetcher/fetcher.go:174-202 | in every reachable state the input is, as a multiset, what is unfed, queued, held, given up, in the channels, failed, filtered, batched or added; nothing is given up unless canceled |
| FetchPipeline.UndisturbedFetch | internal/fetcher/fetcher.go:287-342 | at the end of an uncanceled run with succeeding tracker calls every URL was answered once; the failed URLs are those answered with an error, the filtered ones those with a filtered status, and the pages added are those that came, contents included; the counters are exact, the all-failed error comes exactly when there is a URL and every answer was an error, and one version is published exactly when there is a page |
| FetchPipeline.OneVersionOrNothing | internal/fetcher/fetcher.go:242-342 | at every moment of every run the store is untouched or has exactly one version more, made of all pages that came, in all batches, which are all URLs but those that failed or were filtered; HEAD names it unless a call after the commit failed |
| FetchPipeline.NoSendOnClosedChannel | internal/fetcher/fetcher.go:428-435 | no worker is at a send once a channel is closed |
| FetchPipeline.ErrorSentAtMostOnce | internal/fetcher/fetcher.go:229-349 | the error channel of capacity 1 is sent to at most once, and what the fetch returns is the batcher's verdict |
| FetchPipeline.TrackerErrorExactly | internal/fetcher/fetcher.go:229-349 | along every run the fetch has a tracker error exactly when a tracker call failed, other than the one that saves the last batch of a canceled fetch |
| FetchPipeline.BatchesAreCut | internal/fetcher/fetcher.go:242-342 | in every reachable state a batch has at most the commit size, one is added early exactly at that size, and a stopped batcher leaves no transaction open |
| FetchPipeline.NothingIsSkipped | internal/fetcher/fetcher.go:413-458 | the main goroutine takes its eight stages one by one: it feeds, waits for all workers to exit, closes the three channels, waits for the collector to have seen two of them closed, and for the batcher |
| Tracker.SQLiteTracker.BeginCommit | internal/tracker/sqlite_tracker.go:1021-1063 | a pending commit opens on top of HEAD with a fresh id and nothing in it, or nothing changes |
| Tracker.SQLiteTracker.AddSnapshots | internal/tracker/sqlite_tracker.go:1068-1134 | exactly the snapshots before the first failure are added to the open transaction; the store is unchanged |
| Tracker.SQLiteTracker.FinalizeCommit | internal/tracker/sqlite_tracker.go:1138-1234 | a commit without snapshots is rolled back; otherwise exactly one version with all added rows is published, or nothing if the SQL commit fails; HEAD moves unless a later call fails |
| Tracker.SQLiteTracker.CancelCommit | internal/tracker/sqlite_tracker.go:1238-1269 | the transaction is dropped, the store unchanged, and a closed handle stays closed |
| Tracker.SQLiteTracker.CommitSnapshots | internal/tracker/sqlite_tracker.go:893-987 | a commit publishes all its rows as one version on top of HEAD or leaves the store unchanged |
| Tracker.SQLiteTracker.Checkout | internal/tracker/sqlite_tracker.go:649-730 | HEAD moves only to a committed version and only when everything succeeded |
| Tracker.SQLiteTracker.GetVersionSnapshots | internal/tracker/sqlite_tracker.go:785-816 | the loop gives the files of the version by path, for some order of its rows |
| Tracker.SQLiteTracker.ComputeVersionDiff | internal/tracker/sqlite_tracker.go:302-336 | the diff is the one of the files of both versions, for some order of the rows |
| Tracker.SQLiteTracker.DiffVersions | internal/tracker/sqlite_tracker.go:338-382 | the answer is a diff of the two versions whether it comes from the cache or not, the only one if paths are distinct; a base that is absent never hits the cache; what is computed is cached when the insert succeeds |
| Tracker.FilesForgetOrder | internal/tracker/sqlite_tracker.go:800-811 | with distinct paths the files of a version do not depend on the order of the rows |
| Tracker.DiffIsUnique | internal/tracker/sqlite_tracker.go:302-336 | with distinct paths two versions have one diff, whatever the order of the rows |
| Tracker.DiffTurnsBaseIntoHead | internal/tracker/sqlite_tracker.go:302-336 | with distinct paths a diff covers exactly the paths of head, and for each replaying its body chunks on the file of base gives that of head up to white space, and its header diff gives the normalised headers of head outside the redacted names |
| Tracker.PublishKeepsInv | internal/tracker/sqlite_tracker.go:1161-1182 | a commit keeps ids unique, parents earlier, rows owned and every cached diff right |
| Tracker.CachedEqualsRecomputed | internal/tracker/sqlite_tracker.go:762-778 | a cached diff of versions with distinct paths equals recomputing it |
| Tracker.AncestryEnds | internal/tracker/sqlite_tracker.go:630-647 | going from parent to parent never revisits a version, goes to earlier ones only, and ends at one without a parent |
| Tracker.EveryStoreIsSound | internal/tracker/sqlite_tracker.go:338-382 | in every store the tracker can get to, cached diffs equal recomputation, HEAD names a committed version and parents are committed earlier |
| TextDiff.ComputeChunks | internal/tracker/helpers.go:63-100 | the loop with its two positions computes the chunks of the edit script |
| TextDiff.ChunksSliceThemselves | internal/tracker/helpers.go:63-100 | the offsets of every chunk slice its own content out of base or head, and chunks are in order and do not overlap |
| TextDiff.ReplaySpellsHead | internal/tracker/helpers.go:63-100 | replaying the chunks on base gives head up to white space, off by exactly the dropped characters, and exactly head if no white-space edit was dropped |
| TextDiff.DroppedEditIsLost | internal/tracker/helpers.go:75-84 | an edit of white space only leaves no chunk although base and head differ |
| TextDiff.SurplusZeroDecidesNothing | internal/tracker/helpers.go:75-98 | with as much white space dropped on both sides a moved space is lost and a replaced one is not |
| Text.SpacesAre | internal/tracker/helpers.go:141-142 | white space is tab, line feed, vertical tab, form feed, carriage return and space |
| Text.LettersAreLowered | internal/tracker/helpers.go:138 | the 26 letters are lowered and nothing else changes |
| Headers.NormalizeHeaders | internal/tracker/helpers.go:124-162 | the two passes merge spellings, trim, redact and sort as specified, in some order of visiting the map |
| Headers.NormalizedValues | internal/tracker/helpers.go:133-159 | a sensitive name is redacted if asked for and nothing else is; other names have the trimmed values of all their spellings, sorted unless their order is significant; a name is there when some spelling has a value that is not blank |
| Headers.NormalizedForgetsOrder | internal/tracker/helpers.go:129-159 | for headers that are not order-sensitive, or are redacted, neither the visiting order nor the order of values matters |
| Headers.NormalizedTwice | internal/tracker/helpers.go:124-162 | normalising twice changes nothing more |
| Headers.DiffHeaders | internal/tracker/helpers.go:195-251 | the diff of the normalised sides lists exactly the added, removed, changed and redacted names |
| Headers.DiffAppliesToHead | internal/tracker/helpers.go:210-242 | outside the redacted names, dropping Removed, overwriting with Changed.To and adding Added turns base into head; redacted are exactly the names whose value in head, or in base when gone, is `[REDACTED]` |
| Headers.EmptyDiffMeansEqual | internal/tracker/helpers.go:195-251 | the diff is empty if and only if the sides are equal and nothing is redacted |
| Spider.SpiderHelper.AppendPages | internal/enumerator/spider.go:161-188 | the loop takes in new same-domain pages in order until the cap is reached |
| Spider.SpiderHelper.Run | internal/enumerator/spider.go:190-230 | the queue loop ends, at the first page that is too deep, beyond the cap or missing, or when the root cannot be fetched, and only that is an error |
| Spider.RunIsBounded | internal/enumerator/spider.go:190-230 | a crawl fetches no more pages than there are within the depth limit plus one |
| Spider.WithinHasWalk | internal/enumerator/spider.go:161-188 | a page within k links has a walk of at most k links from the root |
| Spider.WalkIsWithin | internal/enumerator/spider.go:161-188 | and a page with such a walk is within k links |
| Spider.NearIsFound | internal/enumerator/spider.go:202-204 | when the queue reaches a page of depth d, every page within d links is found already |
| Spider.BreadthFirstIsExact | internal/enumerator/spider.go:161-230 | without a cap every recorded depth is a shortest link distance, the results have no duplicates and are ordered by depth, and unless the root fails they are exactly the pages within MaxDepth + 1 links |
| Spider.ResultsInOrderOfOrigin | internal/enumerator/spider.go:161-222 | capped or not, every page but the root comes from the first page of the results that links to it, and pages are in the order of these, and of their first links within the same page |
| Spider.NothingCrawledExactly | internal/enumerator/spider.go:200-215 | nothing is crawled if and only if the depth limit is negative or the root cannot be fetched, and then only the root is found |
| Spider.CapIsPrefix | internal/enumerator/spider.go:156-200 | a crawl capped at N finds exactly the first N pages of the uncapped crawl at the same depths, and fetches the smaller of N and as many pages |
| SiteCatalog.SiteComponentsCatalog.ComponentsFor | internal/app/site_components_catalog.go:43-91 | a call on its own returns what is cached, or builds, caches and drops the lock entry, or fails and caches nothing |
| SiteCatalog.SiteComponentsCatalog.CloseAll | internal/app/site_components_catalog.go:120-135 | every cached bundle is closed once and the cache is empty |
| SiteCatalog.SingleFlight | internal/app/site_components_catalog.go:43-91 | in every interleaving at most one build of a site is in progress, and the site is not cached meanwhile, as long as evictions are harmless and nothing is put for a site being built |
| SiteCatalog.OneBundlePerSite | internal/app/site_components_catalog.go:64-90 | with calls only, at most one build of a site ever succeeds; a call that has returned failed if and only if its own build did, and otherwise has the bundle of that build |
| SiteCatalog.FailsWithItsBuild | internal/app/site_components_catalog.go:64-75 | whatever happens to the cache, a call fails if and only if its own build does |
| SiteCatalog.CallsReturn | internal/app/site_components_catalog.go:43-91 | n calls take at most 8 * n steps, and while one has not returned some call can step |
| SiteCatalog.FailureIsRetryable | internal/app/site_components_catalog.go:72-75 | in every state a new call for an uncached site nobody works on can build and cache it |
| SiteCatalog.EvictionLetsTwoBuild | internal/app/site_components_catalog.go:109-117 | an eviction while a call waits for the deleted lock lets two builds run |
| SiteCatalog.SafeEvictionExactly | internal/app/site_components_catalog.go:54-117 | with a call waiting for its lock or past it, and one not begun, single flight survives an eviction if and only if all calls that may build use the registered lock and none is about to delete its entry |
| Jobs.JobManager.CleanupFinished | internal/app/job_manager.go:185-208 | the loop removes exactly the finished jobs past their retention |
| Jobs.PruningKeepsActive | internal/app/job_manager.go:185-208 | pruning removes exactly what is finished, stamped and older than a positive retention time |
| Jobs.JobManager.CancelWebsiteJobs | internal/app/job_manager.go:212-223 | exactly the registered jobs of the website are canceled |
| Jobs.JobManager.HasActiveWebsiteJobs | internal/app/job_manager.go:244-256 | true if and only if some job of the website has no terminal status |
| Jobs.JobManager.Shutdown | internal/app/job_manager.go:260-270 | every registered job is canceled, no cancel function is left, and finished jobs are pruned |
| Jobs.JobManager.Finish | internal/app/job_manager.go:172-180 | the job is stamped, then the table is pruned, then its cancel function goes |
| Jobs.HistoryIsALifeCycle | internal/app/job_runner.go:21-74 | in every interleaving, unless its commit closure panics after recording, a job's statuses are a prefix of pending, running and one terminal status, recorded only after the body returned, and the table shows the last |
| Jobs.LifeCycleExactlyWhenNoRelapse | internal/app/job_runner.go:46-70 | for a job that is through this holds if and only if no such panic happened; otherwise it went from done to failed |
| Jobs.TerminalIsAbsorbing | internal/app/job_runner.go:44-72 | nothing is recorded for a job that has settled |
| Jobs.StatusTellsEnding | internal/app/job_runner.go:44-72 | a panic of the body ends as failed, an error as failed or, if the context is canceled, as canceled, success as done unless the context is canceled or the commit closure panics; a cancellation before the body returned shows unless it panicked |
| Jobs.CanceledExactly | internal/app/job_manager.go:161-223 | a job is canceled if and only if something canceled it: its own cancellation, its website's deletion or the shutdown while its cancel function is registered, or the end of its context |
| Jobs.RegisteredExactly | internal/app/job_manager.go:153-180 | until the shutdown the registered cancel functions are exactly those of the jobs that got one and have not ended; a job that ended is stamped |
| Jobs.CanceledWhileWorking | internal/app/job_runner.go:57-62 | a job canceled while it works, by its cancel function or its context, that then returns an error, ends as canceled |
| Jobs.EveryJobGoesOn | internal/app/job_runner.go:21-74 | whatever the others do, a job can go on until it is gone, and each of its at most ten steps brings it nearer |
| Jobs.CommitPanicRewritesHistory | internal/app/job_runner.go:46-69 | a run in which a job is done and then failed |
| Jobs.ActiveIsExact | internal/app/job_manager.go:244-256 | in every run, what the wait looks at is true if and only if a listed job of the website has not settled |
| Jobs.DeletionIsSafe | internal/app/orchestrator.go:305-325 | from the end of the wait on, no body of a job recorded by then under the same identifiers is executing, so without later starts none is when the components are closed |
| Jobs.SeenWhenWaitEnds | internal/app/orchestrator.go:305-319 | the jobs this is about are all that have recorded a status by the end of the wait, pruned or not |
| Jobs.StagesInOrder | internal/app/orchestrator.go:305-328 | deleting waits before it evicts and goes on only when no job of the website is active; closing refuses, cancels, waits for the counted jobs or times out, and then closes the sites; no stage is skipped |
| Jobs.NextStage | internal/app/orchestrator.go:704-731 | neither deleting nor closing ever gets stuck |
| Jobs.ClosingIsSafe | internal/app/orchestrator.go:704-731 | unless the wait timed out, every started job has returned before the sites are closed, and none is accepted |
| Broker.SubscriberBroker.Publish | internal/app/subscriber_broker.go:89-108 | every subscriber is sent the event in turn, or misses it, and the broker stays sane |
| Broker.SubscriberBroker.Unsubscribe | internal/app/subscriber_broker.go:75-85 | the channel is removed and closed if it is subscribed, and otherwise nothing happens |
| Broker.SubscriberBroker.Close | internal/app/subscriber_broker.go:112-123 | all subscribers are closed once and forgotten; a second close does nothing |
| Broker.NeverPanics | internal/app/subscriber_broker.go:54-123 | in every interleaving no send hits a closed channel, no channel is closed twice, no buffer overflows: whoever is subscribed has an open channel of its own |
| Broker.SubscribedUntilRemoved | internal/app/subscriber_broker.go:54-85 | a new channel is empty, and it is subscribed and open exactly until it is unsubscribed or the broker closed; on a closed broker it is closed at once |
| Broker.DeliveredInOrder | internal/app/subscriber_broker.go:89-99 | every subscriber gets each publisher's events in that publisher's order, without duplicates |
| Broker.DeliveredOrLost | internal/app/subscriber_broker.go:96-107 | whoever is subscribed during a publication gets the event or loses it, never both |
| Broker.PublicationReachesAll | internal/app/subscriber_broker.go:89-108 | whoever is subscribed when a publication begins has the event, or missed it, but not both, when it ends |
| Broker.ReceivedInOrder | internal/app/subscriber_broker.go:54-72 | the k-th receipt from a channel takes the k-th event delivered to it; publishers number their events without a gap |
| Broker.LostOnlyWhenFull | internal/app/subscriber_broker.go:97-100 | an event is lost only by a send to a subscriber whose buffer holds 100 events |
| FilterConfig.MergeConfigs | internal/filter/config.go:39-79 | the loops with their seen maps keep the first of equal entries, extensions normalised, rules by id |
| FilterConfig.DedupAppend | internal/filter/config.go:84-93 | appends what is new and keeps the seen map in step |
| FilterConfig.RulesToConfig | internal/filter/config.go:105-131 | the values of the enabled rules become skip lists, unreadable status codes are dropped |
| FilterConfig.NormalizeTwice | internal/filter/config.go:96-102 | normalising an extension twice changes nothing more; the result is the trimmed extension in lower case, with a dot in front if it had none |
| FilterConfig.MergeAssociative | internal/filter/config.go:36-79 | a group of configurations can be merged first, at either end of the list |
| FilterConfig.FirstRuleIsKept | internal/filter/config.go:68-75 | a rule is in the merged configuration if and only if it is the first with its id in all configurations |
| FilterConfig.LaterRuleIsKept | internal/filter/config.go:36-75 | a rule of a later configuration is kept if and only if no earlier one has its id, or the first that has is equal |
| FilterConfig.LaterTakesPrecedenceExactly | internal/filter/config.go:36-75 | all rules of the later configuration are kept if and only if none clashes with an earlier one |
| FilterConfig.EarlierRuleWins | internal/filter/config.go:68-75 | two configurations with different rules of one id, of which the earlier is kept |
| FilterConfig.Engine.ShouldFilter | internal/filter/engine.go:29-79 | the scan of the sorted rules, then patterns, then extensions, for whatever order the sort leaves |
| FilterConfig.Engine.ShouldFilterStatus | internal/filter/engine.go:82-115 | true if and only if the code is listed or an enabled status rule names it |
| FilterConfig.FlagIsDisjunction | internal/filter/engine.go:29-79 | a URL is filtered if and only if some enabled rule, pattern or extension matches, in any order of the rules |
| FilterConfig.ReasonHasHighestPriority | internal/filter/engine.go:34-60 | the reason names type and value of a matching rule than which no other matching rule has a higher priority |
| FilterConfig.ReasonOfLists | internal/filter/engine.go:62-78 | without a matching rule the reason is the first matching pattern, without that the extension, and without that the URL passes |
| FilterConfig.EmptyFiltersNothing | internal/filter/engine.go:30-32 | the empty configuration is the one without entries, and filters nothing |
| FilterConfig.MergedDecision | internal/filter/config.go:39-79 | the merged configuration filters a URL if and only if a skip list does, or a rule that is the first with its id; where ids identify rules, if and only if one of the merged ones does |
| FilterConfig.MergedStatusDecision | internal/filter/config.go:39-79 | the same for status codes |
| FilterConfig.LoadedDecision | internal/registry/filter_config.go:32-36 | the configuration as it is loaded filters a URL if and only if a skip list, a rule of the website, or a rule of one of the two configurations that is the first with its id does, whatever the priorities and the order |
| FilterConfig.LoadedStatusDecision | internal/registry/filter_config.go:32-36 | the same for status codes |
| FilterConfig.PatternRuleIsGlob | internal/filter/matchers.go:51-63 | on star-free URLs a pattern rule filters all that its pattern matches as a glob, unless a star stands between two `**`, and no others without `**`, or without single stars when the parts cannot share bytes; where the matcher does not panic, exactly those with the prefix, the suffix and the middle parts found in turn |
| FilterApply.Index.UpdateInBatches | internal/indexer/indexer.go:380-420 | the 500-row loop does what one update does, or stops after the batches before the failing one |
| FilterApply.Index.MarkFilteredBatch | internal/indexer/indexer.go:373-423 | the listed rows become filtered with their reasons, up to the failing batch |
| FilterApply.Index.UnfilterBatch | internal/indexer/indexer.go:426-461 | the listed filtered rows become pending, up to the failing batch |
| FilterApply.Index.MarkFailedBatch | internal/indexer/indexer.go:208-253 | the listed rows become failed whatever they were, up to the failing batch |
| FilterApply.Index.ListEndpointsFiltered | internal/indexer/indexer.go:317-369 | the listed endpoints that pass are returned, the others marked |
| FilterApply.FilteredListingAgrees | internal/indexer/indexer.go:335-368 | with unique URLs, what such a listing of unfiltered endpoints returns is what is still unfiltered afterwards |
| FilterApply.Index.ApplyFilters | internal/server/filter_handlers.go:370-426 | a successful apply resets and re-marks every row as specified, or does nothing for an empty configuration; after a failure every row is as it was, reset, or done |
| FilterApply.ApplyingIsExact | internal/server/filter_handlers.go:370-426 | afterwards an endpoint is filtered if and only if a rule matches its URL, formerly filtered others are pending, all else is kept |
| FilterApply.AppliesExactly | internal/server/filter_handlers.go:358-378 | after a successful apply exactly the matching endpoints are filtered if and only if there is a rule or nothing was filtered |
| FilterApply.RemovedRuleLingers | internal/server/filter_handlers.go:358-368 | a filtered endpoint that stays filtered without any rule |
| FilterApply.ApplyingTwice | internal/server/filter_handlers.go:370-426 | applying again changes no status, in whatever order the rules are evaluated |
| FilterApply.FilteredStays | internal/indexer/indexer.go:149-253 | marking as pending or fetched keeps filtered rows; marking as failed keeps them if and only if none is listed |
| FilterApply.MarkingsExactly | internal/indexer/indexer.go:149-461 | the status machine row by row: what each of the five markings makes of a listed row, and that it leaves the others alone |
| FilterApply.ProcessedExactly | internal/indexer/indexer.go:380-420 | a batched operation succeeds if and only if all is processed; otherwise it has processed 500 rows for every batch before the failing one |
| FilterApply.LimitedExactly | internal/indexer/indexer.go:317-369 | a listing is cut to a positive limit only |
| FilterApply.FailedOverridesFiltered | internal/indexer/indexer.go:227-231 | a filtered endpoint that becomes failed |
| DomDiff.KeyIsInjective | frontend/components/analysis/DOMParser.ts:119-127 | the textual key of a child determines its tag and its index |
| DomDiff.SameAttributesIsEquality | frontend/components/analysis/DOMParser.ts:155-163 | comparing key counts and one side's entries decides equality of the attributes |
| DomDiff.SameArrayIsEquality | frontend/components/analysis/DOMParser.ts:165-170 | comparing entries decides equality of the class lists |
| DomDiff.ChangedExactlyWhenDifferent | frontend/components/analysis/DOMParser.ts:102-117 | a compared node is unmarked if and only if attributes, classes and id agree |
| DomDiff.DiffShowsHead | frontend/components/analysis/DOMParser.ts:86-153 | dropping removed subtrees and marks from a diff gives the head tree in order |
| DomDiff.DiffConservesNodes | frontend/components/analysis/DOMParser.ts:119-145 | nodes of head without the added ones equal nodes of base without the removed ones |
| DomDiff.SelfDiffIsSilent | frontend/components/analysis/DOMParser.ts:102-153 | a tree compared with itself is itself, with no mark |
| DomDiff.SilentExactlyWhenAlike | frontend/components/analysis/DOMParser.ts:86-186 | a diff has no marks if and only if the trees are equal up to the order of siblings, texts and the tag of the root |
| DomDiff.ChangeSummary.Visit | frontend/components/analysis/DOMParser.ts:172-186 | the three counters grow by the numbers of marked nodes |
| DomDiff.HtmlParser.ParseNode | frontend/components/analysis/DOMParser.ts:23-70 | the recursion with its shared counter computes the numbered tree |
| DomDiff.ParsedLabelsAreUnique | frontend/components/analysis/DOMParser.ts:23-69 | tag and index are unique over the whole tree, and every tag is numbered from 0 without a gap |
| DomDiff.ParsedShowsPage | frontend/components/analysis/DOMParser.ts:31-70 | the parsed tree has tag, attributes, id, classes and text of every element and its children in order, down to the depth limit; of scripts and styles only tag and attributes |
| DomDiff.PagesDiff | frontend/components/analysis/DOMParser.ts:18-153 | for two parsed pages the diff shows head, conserves nodes, and is silent exactly when the pages are alike, so when they are equal |

## Left out

- HTTP clients, the browser client, the SSRF dialer, the analyzer sidecar, HTTP routing, authentication, Swagger and the event stream handler: plumbing over libraries.
- URL parsing, canonicalisation, the diff library and HTML parsing: their results are fixed functions or given trees.
- TextDiff.ReplaySpellsHead: white space is that of ASCII, because texts are bytes.
- Headers.NormalizeHeaders: letter case and white space are those of ASCII, which field names and almost all values are made of.
- Blobs, working-tree files, JSON encoding, SQLite pragmas, timestamps and authors of versions: nothing in the properties depends on them.
- Nil snapshots, which the tracker skips, and nil jobs and bundles, which are never stored.
- Tracker.SQLiteTracker.CommitSnapshots: one method for a single commit (internal/tracker/sqlite_tracker.go:159-261) and a batch commit; a single commit is one snapshot with normalised headers, a batch keeps the headers as they are, and the two differ in nothing else the model has.
- FetchPipeline.UndisturbedFetch: leaves out scoring and the marking of fetched, filtered and failed endpoints inside the fetch; only the fetch uses the tracker meanwhile, so the parent is the HEAD at its start.
- Jobs.ClosingIsSafe: does not cover jobs that passed the closed check but had not started their goroutine when the wait ended, nor a wait that times out, because wall-clock time is not modelled.
- Jobs.HistoryIsALifeCycle: error texts, result payloads and progress events are not part of the transition system.
- SiteCatalog.FailureIsRetryable: is about a call nobody overtakes; calls that wait at the same time are covered by the other lemmas.
- Broker: the events of a publisher are numbered; their contents and the debug log are left out.
- FuzzyGlob.GlobPanicsExactly: for a pattern that does not begin and end with `**` only that such a part is needed for a panic; the prefix and suffix checks can still keep all panicking strings out.
- GlobOverlap.ExactWhenApart: for patterns without single stars.
- FilterConfig.PatternRuleIsGlob: where the matcher panics the engine panics too, which the library function of the model leaves open.
- FilterApply.Index: the discovery of endpoints, timestamps in the meta column and rows whose status is NULL.
- DomDiff.HtmlParser.ParseNode: a tag named like a property every JavaScript object has, such as `constructor`, would read the counter of that property; tags are ordinary map keys here.
- React components, the demo server, configuration, logging, registry CRUD, scoring and attack-surface analysis.
