# Crawl orchestration of node-website-url-scraper, in Dafny

This project models the core of a single-host web crawler written for Node.js:

- the FIFO task queue;
- the result store keyed by URL;
- task creation from discovered links, and the five checks that admit a task:
  - not already stored;
  - not already queued;
  - same domain (ignoring the first `www.`);
  - not a download link;
  - allowed by robots;
- the worker that seeds the queue, drains it in batches, stores each page before expanding its links, and queues the links that pass admission;
- the page record and the post-crawl report: the working/failed split, truncating averages, internal/external link totals and a histogram of failed pages' status codes;
- the `--url=` command-line argument.

Foreign capabilities are parameters:

- the page fetcher (`fetch: string -> Page`, which always returns a page);
- Node's `url.parse`/`url.format` (`UrlCodec`, where `None` means the call throws);
- the robots policy (`Policy`, where `Unset` allows everything).

## Structure

| file | contents |
|---|---|
| `wrappers.dfy`, `urls.dfy`, `tasks.dfy`, `robots.dfy` | `Option`, the parsed-URL record and codec, `Task`, the robots gate |
| `page.dfy` | `Page` and the plain object it becomes in the store |
| `queue_service.dfy` | class `TaskQueue` over `seq<Option<Task>>` |
| `local_storage.dfy` | class `LocalStore` over `map<string, Stored>` |
| `config.dfy` | batch size, the download pattern `(words)$` with flags `g`, `m`, `i`, and class `DownloadRegex` holding `lastIndex` |
| `task_service.dfy` | task creation, URL completion, the same-domain test, admission |
| `crawl_spec.dfy` | the scheduler as functions over values (`Expand`, `ProcessEntry`, `ProcessBatch`, `Run`) and the crawl invariants |
| `crawler.dfy` | class `Worker`, whose methods are proved equal to those functions |
| `crawl_examples.dfy` | a concrete crawl that fetches a URL twice with batches of two |
| `reporting.dfy` | the report |
| `command_line.dfy` | `getUrlArg` and `main`'s check for an empty URL |

## Behaviour worth knowing

- The crawl fetches a URL at most once only when a round takes one task:
  - `SingleTaskRoundsNeverRevisit` proves it for one task per round.
  - With larger batches, a task that has been dequeued is neither stored nor queued while its siblings in the batch expand their links, so a sibling can queue it again.
  - `CrawlExamples.SiblingLinkRefetched` exhibits this: three pages with batches of two fetch `c` twice.
- A failure during link expansion is not absorbed link by link:
  - a throw from `ensureSameDomain` (a URL without a host) ends `createNewTasks` early;
  - `crawlPage` then catches it and stores the exception in place of the page. The store keeps it as `{}`, and `getAll` later drops it;
  - a `null` seed task makes `crawlPage` reject, so the whole crawl rejects (`Outcome.Rejected`).
- A link without a hostname keeps the parent's protocol, host and `#fragment`, because `getCompleteTaskUrl` copies the link's search and path onto the parent but not its hash. The test is on `hostname`, not `host`, so a port-only authority such as `http://:8080/x` counts as having no hostname even though its host is `:8080`.
- `ensureSameDomain` compares hosts with the port included, after deleting the first `"www."` anywhere in each host, not only a leading one.

## Model

| member | source | states |
|---|---|---|
| Pages.NewPage | src/models/Page.js:2-9 | every field (and so every getter) is the constructor's argument; an absent `links` becomes `[]` |
| Pages.ErrorPage | src/models/Page.js:2-9 | a page built from error, URL and status code alone has no links, no request time and no size |
| Pages.CreateNewPageFromObject | src/models/Page.js:31-35 | the page has the object's error, URL, status code, request time and size, its links or `[]` when absent, and an error exactly when the object's `pageErr` is truthy |
| Pages.ToObject | src/services/localStorageService.js:12-14 | a stored page keeps its links (as present) |
| Pages.RebuildFromObject | src/models/Page.js:31-35 | rebuilding a page from its own fields yields an equal page |
| Pages.ObjectRoundTrip | src/models/Page.js:2-35 | rebuilding keeps every field of an object exactly when its `links` is present |
| Robots.IsUrlAllowed | src/utils/robotsUrlChecker.js:38-43 | no policy loaded allows every URL; a loaded policy decides |
| QueueService.Find | src/services/queueService.js:37-44 | a found task has the URL and is in the queue; nothing found means every slot holds a task with another URL; a throw means a `null` slot exists |
| QueueService.FindCharacterized | src/services/queueService.js:37-44 | the scan returns the first task with the URL, reports absence only after a clean scan, and throws only on a `null` met first |
| QueueService.FindWithoutNull | src/services/queueService.js:37-44 | on a queue without `null`, the scan never throws and finds nothing exactly when the URL is not queued |
| QueueService.TakeCount | src/services/queueService.js:20-26 | the batch size is `min(n, length)`, and 0 for a negative `n` |
| QueueService.TaskQueue.constructor | src/services/queueService.js:1 | the queue starts empty |
| QueueService.TaskQueue.AddTask | src/services/queueService.js:11-13 | the task is appended at the back, with no duplicate check; the length grows by one |
| QueueService.TaskQueue.GetTasks | src/services/queueService.js:20-26 | the batch is the first `min(n, length)` tasks, the queue is the rest, batch plus queue is the old queue; the default is 1; an empty queue gives an empty batch |
| QueueService.TaskQueue.GetQueueLength | src/services/queueService.js:28-30 | the number of pending slots |
| QueueService.TaskQueue.FindTask | src/services/queueService.js:37-44 | the loop returns exactly what the first-match scan `Find` gives, without changing the queue |
| LocalStorage.LocalStore.constructor | src/services/localStorageService.js:1 | the store starts empty |
| LocalStorage.LocalStore.AddItem | src/services/localStorageService.js:12-14 | the key now maps to the value; every other key keeps its value |
| LocalStorage.LocalStore.GetItem | src/services/localStorageService.js:21-23 | the stored value, or `None` exactly when the key is absent |
| LocalStorage.LocalStore.GetAll | src/services/localStorageService.js:29-37 | an item is listed exactly when its key is non-empty and its value is a non-empty object stored under it; each key at most once; every entry when all pass the filter; the store is unchanged |
| Config.DownloadWordsAreLong | src/config/config.js:5 | each of the 20 alternatives has at least two characters |
| Config.WordIndexAt | src/config/config.js:5 | the pattern tries its alternatives in order, and the first one that fits before a line end is chosen |
| Config.SingleLineMatchIsSuffixTest | src/config/config.js:5 | on a string without line terminators, `(words)$` with the `i` flag matches exactly when the lower-cased string ends with one of the words |
| Config.DownloadIsSuffixTest | src/services/taskService.js:94-98 | a single-line URL is a download exactly when, lower-cased, it ends with one of the 20 words |
| Config.NoDotNeeded | src/config/config.js:5 | no dot is needed before the word: `/NodeJS` is a download |
| Config.MatchEnd | src/config/config.js:5 | a match ends at a line end, not before its start |
| Config.DownloadRegex.constructor | src/config/config.js:5 | the shared pattern starts searching at index 0 |
| Config.DownloadRegex.Test | src/services/taskService.js:95 | `test` finds a match at or after `lastIndex` exactly when one exists, leaves `lastIndex` after the leftmost match, and resets it to 0 on failure |
| Config.StaleLastIndexFlipsAnswer | src/services/taskService.js:94-98 | without the reset, testing `a.pdf` a second time would answer no |
| TaskService.EnsureUrlObject | src/services/taskService.js:64-69 | a string is parsed; a parsed URL passes through |
| TaskService.GetCompleteTaskUrl | src/services/taskService.js:43-57 | a link with a non-empty hostname is kept; any other link, a port-only authority included, gets the parent's protocol, host, hostname and fragment with its own pathname and search; the call fails exactly when a parse fails |
| TaskService.CreateNewTask | src/services/taskService.js:19-33 | a parse failure of the link, or of a truthy parent, gives `null`; without a parent the task is the formatted parse of the link and `null` exactly when formatting throws; with one, it is the formatted completed URL and `null` exactly when formatting that throws |
| TaskService.SeedTaskIsVerbatim | src/services/taskService.js:19-24 | with no parent, a URL that formats back to itself becomes a task for exactly that URL, unchecked |
| TaskService.AbsoluteLinkIgnoresParent | src/services/taskService.js:43-57 | a link with a non-empty hostname gives the same task whatever the parent, and the same as with no parent |
| TaskService.HostlessLinkUsesParentOrigin | src/services/taskService.js:47-53 | a link without a hostname becomes the parent's protocol, host, hostname and fragment with the link's path and search; the path is replaced, not merged |
| TaskService.StripWww | src/services/taskService.js:109 | deleting `www.` never lengthens the host |
| TaskService.StripWwwWithoutWww | src/services/taskService.js:109 | a host without `www.` is unchanged |
| TaskService.StripWwwFirstOccurrence | src/services/taskService.js:109 | only the first `www.` is deleted, wherever it stands |
| TaskService.WwwPrefixIgnored | src/services/taskService.js:106-110 | `www.h` and `h` have the same domain key |
| TaskService.EnsureSameDomain | src/services/taskService.js:106-110 | the test answers exactly when both URLs parse and both hosts are non-null, and throws otherwise; the answer is whether the two hosts agree once `StripWww` has deleted the first `www.` of each |
| TaskService.WwwHostSameDomain | src/services/taskService.js:106-110 | a URL whose host is `h` and one whose host is `www.h` are on the same domain, in either role |
| TaskService.SameDomainSymmetric | src/services/taskService.js:106-110 | the same-domain test is symmetric |
| Config.IsDownloadUrl | src/services/taskService.js:94-98 | the download test is the pattern searched from index 0; a URL shorter than two characters is never a download |
| TaskService.CheckForDownloadUrls | src/services/taskService.js:94-98 | the answer is the pattern searched from the current `lastIndex`, and `lastIndex` is 0 afterwards |
| TaskService.Admission | src/services/taskService.js:81-87 | the checks run in source order; a yes means every check passed, with `findTask` finding nothing; a throw can only come after the store check passed and the queue scan found nothing |
| TaskService.AdmissionIsConjunction | src/services/taskService.js:81-87 | on a queue without `null`, a task is admitted exactly when it is not stored, not queued, on the parent's domain, not a download and allowed by robots; a stored URL is refused |
| TaskService.ValidateTask | src/services/taskService.js:81-87 | the short-circuit chain computes `Admission` over the current store and queue, changes neither, and leaves `lastIndex` at 0 |
| CrawlSpec.Expand | src/worker.js:67-74 | the link loop appends at most one task per link and never removes one |
| CrawlSpec.ExpandAppendsAdmitted | src/worker.js:67-74 | every task `createNewTasks` appends passed all five checks, the not-queued check against the queue as it stood just before that append |
| CrawlSpec.ExpandKeepsPrefix | src/worker.js:67-72 | `createNewTasks` only appends: the old queue is a prefix of the new one |
| CrawlSpec.AdmittedWhenAdmission | src/services/taskService.js:81-87 | a yes from the check chain means the task is not stored, not queued, on the parent's domain, not a download and allowed by robots |
| CrawlSpec.ExpandTasksComeFromLinks | src/worker.js:67-72 | every appended task is the task made from one of the links |
| CrawlSpec.ExpandOneLink | src/worker.js:68-71 | one link appends nothing or exactly the task made from it; a throw appends nothing |
| CrawlSpec.ExpandComposes | src/worker.js:67-72 | `forEach` handles the links in list order: expanding `l1 + l2` is expanding `l1`, then, unless that threw, `l2` against the queue `l1` left; with `ExpandOneLink` this ties the order of the appended tasks to the order of their links |
| CrawlSpec.ExpandQueuesEveryAdmissible | src/worker.js:67-74 | conversely, when no check throws, every link whose task is not stored, on the parent's domain, not a download and allowed by robots ends up queued |
| CrawlSpec.ExpandKeepsUnique | src/worker.js:67-74 | `createNewTasks` never queues a URL twice |
| CrawlSpec.ExpandKeepsDisjoint | src/worker.js:67-74 | `createNewTasks` queues no URL that is stored |
| CrawlSpec.AppendUnique | src/services/queueService.js:11-13 | appending a URL that is not queued keeps the queue duplicate-free |
| CrawlSpec.ProcessEntry | src/worker.js:51-59 | `crawlPage` succeeds exactly on a non-null task, keeps every stored key and every earlier fetch, and adds at most one task per link of the fetched page |
| CrawlSpec.EntryStoresItsResult | src/worker.js:51-59 | `crawlPage` stores under its own URL whatever the fetch returned, records one fetch, leaves other stored values alone, and never re-queues its own URL |
| CrawlSpec.NullEntryRejects | src/worker.js:51-59 | a `null` task rejects and changes nothing |
| CrawlSpec.EntryRecordsItsUrl | src/worker.js:51-59 | one step adds exactly its task's URL to the fetched list and to the store's keys |
| CrawlSpec.EntryKeepsUnique | src/worker.js:51-59 | `crawlPage` never queues a URL twice |
| CrawlSpec.EntryKeepsNoRevisit | src/worker.js:51-59 | processing a task that is neither stored nor queued keeps the queue duplicate-free and disjoint from the store, and the fetched list duplicate-free |
| CrawlSpec.ProcessBatch | src/worker.js:42-43 | a batch keeps every stored key and every earlier fetch |
| CrawlSpec.BatchRejectsOnNull | src/worker.js:42-43 | a batch rejects exactly when it holds a `null` |
| CrawlSpec.BatchFetchesEveryTask | src/worker.js:42-43 | every task of a batch is fetched once, in batch order |
| CrawlSpec.BatchStoresEveryTask | src/worker.js:42-43 | every task of a batch gets a stored result under its own URL |
| CrawlSpec.BatchKeepsUnique | src/worker.js:42-43 | a batch never leaves a URL queued twice |
| CrawlSpec.SuffixUnique | src/services/queueService.js:20-26 | dequeuing keeps the rest of the queue duplicate-free |
| CrawlSpec.Run | src/worker.js:37-45 | the crawl keeps every stored key and every earlier fetch; a batch size below 1 dequeues nothing, so the crawl finishes at once |
| CrawlSpec.RunKeepsUnique | src/worker.js:37-45 | with any batch size, a duplicate-free queue stays duplicate-free and the crawl never rejects |
| CrawlSpec.FinishedMeansDrained | src/worker.js:37-45 | the crawl finishes only on an empty queue, and an empty queue finishes it at once |
| CrawlSpec.SingleTaskRoundsNeverRevisit | src/worker.js:37-45 | with one task per round, the queue stays disjoint from the store and no URL is fetched twice |
| CrawlSpec.SeededSingleTaskCrawlNeverRevisits | src/worker.js:18-45 | from a freshly seeded worker, one task per round never fetches a URL twice |
| CrawlSpec.SeedWithoutLinks | src/worker.js:37-59 | a seed page without links gives one round, one fetch, one stored result, then `Finished` |
| CrawlExamples.SiblingLinkRefetched | src/worker.js:38-55 | with batches of two, a link to a batch sibling is queued again and the sibling is fetched twice |
| Crawler.Worker.constructor | src/worker.js:18-22 | a fresh worker has an empty store and a queue holding only the unchecked seed task; its batch size is the environment's `BATCH_SIZE` when set and `Config.BATCH_SIZE` (25) otherwise |
| Crawler.Worker.StartCrawling | src/worker.js:28-31 | a loaded policy replaces the current one, then the crawl runs as `Run` says |
| Crawler.Worker.Crawl | src/worker.js:37-45 | each round takes a batch and recurses while the batch is non-empty and every task succeeded, leaving queue, store and fetched list as `Run` says, with the same outcome |
| Crawler.Worker.CrawlBatch | src/worker.js:42-43 | crawling every task of a batch leaves the state as `ProcessBatch` says, and succeeds exactly when it does |
| Crawler.Worker.CrawlPage | src/worker.js:51-59 | fetch, store, expand and the catch-time overwrite leave the state as `ProcessEntry` says |
| Crawler.Worker.CreateNewTasks | src/worker.js:67-74 | the link loop leaves the queue as `Expand` says, and reports a throw exactly when `Expand` does |
| Reporting.WorkingPages | src/services/reportingService.js:48-50 | a page is kept exactly when it has no error |
| Reporting.FailedPages | src/services/reportingService.js:52-54 | a page is kept exactly when it has an error |
| Reporting.WorkingAndFailedPartition | src/services/reportingService.js:117-123 | the two filters split the pages: the multisets add up and the lengths sum to the input length |
| Reporting.FiltersDistribute | src/services/reportingService.js:48-54 | both filters keep input order: filtering a concatenation concatenates the filtered parts |
| Reporting.Avg | src/services/reportingService.js:113-115 | the quotient truncated toward zero; `NaN` exactly when the total is missing or there are no items |
| Reporting.AvgExamples | src/services/reportingService.js:113-115 | 100 over 2 is 50, 94 over 11 is 8, -7 over 2 is -3 |
| Reporting.SumDefined | src/services/reportingService.js:57 | a sum is a number exactly when every summand is defined, and then it is the sum `Sum` of the summands |
| Reporting.AverageLoadTime | src/services/reportingService.js:56-59 | a number exactly when there are pages and each has a request time, and then `Avg` of the sum of the request times over the page count |
| Reporting.AverageLoadTimeExample | src/services/reportingService.js:56-59 | request times of 100 and 201 average 150 |
| Reporting.AveragePageSize | src/services/reportingService.js:61-64 | a number exactly when there are pages and each has a size, and then `Avg` of the sum of the sizes over the page count |
| Reporting.TotalLinks | src/services/reportingService.js:67 | no page has more links than the total |
| Reporting.AverageLinksOnPage | src/services/reportingService.js:66-69 | the truncated mean of link counts, a number exactly when there are pages |
| Reporting.IsInternalLink | src/services/reportingService.js:141-143 | a hostless link on a page with a host is internal; a link with a host is internal exactly when `ensureSameDomain` says it is on the page's domain; a parse failure throws |
| Reporting.CountLinks | src/services/reportingService.js:76-93 | a page counts no more links than it has |
| Reporting.TotalLinksByDomain | src/services/reportingService.js:76-93 | a total counts no more links than the pages have |
| Reporting.LinkCountsComplement | src/services/reportingService.js:131-143 | on one page, the internal and external filters are complements |
| Reporting.LinkTotalsComplement | src/services/reportingService.js:76-93 | internal plus external links is every link on the pages, and either both totals exist or neither |
| Reporting.StatusKey | src/services/reportingService.js:103-108 | a falsy status code goes to `noStatusCode`, any other to its own bucket |
| Reporting.FailedPagesStatusCodes | src/services/reportingService.js:100-111 | each bucket counts exactly the pages that fall in it, and only non-empty buckets are present, so the counts add up to the number of pages |
| Reporting.PagesOf | src/services/reportingService.js:16 | each stored item is rebuilt into a page, in order |
| Reporting.GetReport | src/services/reportingService.js:15-35 | the counts are the filters' sizes and sum to the number of items; the averages and link totals are those of the working pages; internal plus external is every working link; the histogram is that of the failed pages |
| CommandLine.SecondField | src/utils/commandLineArgs.js:9 | the field holds no `'='` and is exactly the text between the first `'='` and the next `'='` or the end |
| CommandLine.GetUrlArg | src/utils/commandLineArgs.js:6-13 | `null` exactly when no argument contains `--url=`; the answer holds no `'='` |
| CommandLine.FirstFlaggedArgumentWins | src/utils/commandLineArgs.js:7-10 | the first argument containing the flag decides; later ones are never read |
| CommandLine.UrlFlagRoundTrip | src/utils/commandLineArgs.js:9 | `--url=` followed by a URL without `'='` gives that URL back; a URL with `'='` is cut at its first `'='` |
| CommandLine.FlagInsideArgument | src/utils/commandLineArgs.js:8 | the flag need not start the argument |
| CommandLine.StartUrl | src/main.js:13-17 | a crawl starts exactly when the argument is found and non-empty |
| CommandLine.EmptyUrlShowsUsage | src/main.js:13-16 | a bare `--url=` gives `""`, which means usage text and no crawl |

## Left out

- Page fetching (src/services/pageCrawlService.js): HTTP requests, timeouts, connection pools and link extraction from HTML. The fetcher is the parameter `fetch`, a function that always returns a page, as the source's own `catch` makes it.
- Loading robots.txt over the network and parsing it with the robots-parser library. The loaded policy is the `Policy` passed to `StartCrawling`; a failed load is `Unset`.
- Node's `url.parse` and `url.format`. They are the `UrlCodec` parameter, so their quirks are not modelled. The record omits the `path`, `query`, `href` and `auth` fields.
- TaskService.GetCompleteTaskUrl: modelled on values. The source overwrites fields of the parent's freshly parsed object. No one else holds that object, so the in-place update cannot be observed.
- `Promise.all` concurrency. A batch is processed one task after another, in batch order, which is one of the interleavings the event loop allows. Results under other completion orders are not modelled; they differ in append order.
- Crawler.Worker.Crawl: the source recurses until a batch comes back empty and need not terminate. The model runs at most `fuel` rounds and reports `OutOfFuel` when they run out.
- Crawler.Worker: `fetched` is bookkeeping added to state properties about fetches. The source keeps no such list.
- `getWorkingPercentage`: floating-point `parseFloat`/`toFixed`.
- Reporting.Avg: quotients that JavaScript prints in exponent notation are not modelled, and neither are non-integer item counts. For exponent notation, `parseInt` reads only the leading digits.
- Logging (src/utils/logger.js), `showUsage`, timing and printing in src/main.js, and the benchmark server.
- Environment overrides in src/config/config.js other than `BATCH_SIZE`. A numeric `BATCH_SIZE` from the environment is passed to the `Worker` constructor as the integer `splice` reads. A non-numeric one is not modelled: there `queue.length > NaN` is false, so every round would take the whole queue.
- LocalStorage.LocalStore.GetAll: the store package's iteration order is left open.
- Strings are sequences of Dafny characters, not UTF-16 code units.
- Several workers in one process would share the module-level queue, store and pattern. Each `Worker` here owns fresh ones, as in a fresh process.
- src/models/Task.js is not part of this model.
- The test files (src/test/) serve only as evidence for the properties.
