# confluence-offline-copy: a Dafny model of the export planner

`dump.js` copies pages of a Confluence wiki into dated offline snapshots.
It searches for tagged pages and page trees, queues every page for PDF
export with its attachments, and prunes snapshots older than a retention
window. This project models the sequential logic of that script as pure
Dafny functions and proves properties about them:

- **Pagination** (`pagination.dfy`): `paginated_fetch` is modelled as a
  recursive function over a page oracle `serve`. The oracle maps the request
  actually sent to the server's response. The continue-test and the default
  cursor are parameters. The code as written uses `SizeIsZero`
  (`results.size == 0`, always false) with a default cursor of 1. The
  corrected variant uses `PageIsFull` with a default cursor of 0. A `fuel`
  bound caps the number of requests.
- **Paths** (`paths.dfy`): JavaScript's `split('/')`, `join('/')` and
  `split('/').at(-1)`, with round-trip lemmas.
- **Content** (`content.dfy`): search results, attachment records, endpoint
  URLs and the child query `parent = <id>`. It also links the searches and
  attachment listings to `paginated_fetch` as written: each one yields at
  most the first page.
- **Layout** (`layout.dfy`): `getRelativeOutputDir`, the dated snapshot root,
  the PDF path, and the attachment download URLs and paths. `sanitize` is an
  uninterpreted function parameter.
- **Config** (`config.dfy`): the `??` chains of `workOnConfig`.
- **Discovery** (`discovery.dfy`): the queueing loops. The single pages come
  first, then each tree root followed by its direct children. The model
  includes the TypeError thrown when a search yields no value.
- **Workflow** (`workflow.dfy`): discovery wired to the layout. This produces
  the queued jobs with their destination directories.
- **Retention** (`retention.dfy`): `cleanupOutputDirectory` as a loop over
  the directory listing. The first removal that throws ends the sweep.

The code behaves as follows where a reader might expect otherwise:

- A failed fetch yields `undefined`, not an empty list.
- Iterating over that `undefined` throws out of `main`, which ends the whole
  run: this config's sweep and every later config are skipped.
- One failed removal ends the whole sweep, rather than skipping only that
  entry.
- Pagination as written never requests a second page.
- Each page is exported into its own directory, named after its sanitized
  title, so the PDF is at `<space>/[<root>/]<title>/<title>.pdf`.

## Model

| member | source | states |
|---|---|---|
| Pagination.PaginatedFetch | dump.js:49-76 | The first request is the caller's parameters with `limit=25` forced. The run issues at most `fuel` requests. |
| Pagination.FetchEnds | dump.js:55-75 | A run yields no value exactly when its last request got a non-200 status or an unreadable body. A returned list means the last page succeeded and failed the continue-test, and the list extends the accumulator. |
| Pagination.OutOfFuelMeansBudgetSpent | dump.js:67-71 | The model stops for lack of fuel exactly when every request of the budget was issued and the last page still passed the continue-test, that is, when the source would have sent another request. |
| Pagination.RequestsKeepQuery | dump.js:50-53 | Every request carries `limit=25`, the caller's endpoint and the caller's cql; from page to page only `start` changes. |
| Pagination.AccumulatesInOrder | dump.js:63-73 | A returned list is the previous accumulator followed by the results of every requested page, in request order, with nothing dropped or duplicated. |
| Pagination.ReturnedListMeansAllSucceeded | dump.js:55-75 | A run that returns a list got status 200 and a readable page for every request. One failed page anywhere discards everything accumulated, and the caller gets no value rather than an empty list. |
| Pagination.AsWrittenSingleRequest | dump.js:63-75 | With the continue-test as written, any server gets exactly one request. The call yields the accumulator plus that page's results, or no value if the request failed. |
| Pagination.CursorAdvances | dump.js:67-70 | Each request after the first follows a successful page that passed the continue-test. It differs from the previous request only in `start`, which becomes the previous cursor (default 1) plus the `limit` the server reported. |
| Pagination.CursorIncreases | dump.js:67-70 | When the server always reports a positive limit, the cursor strictly increases across the requests of one query. |
| Pagination.FullPagesCollectRest | dump.js:63-71 | Against a 0-indexed backend and with the corrected continue-test, a fetch resuming at index `s` returns the accumulator plus every item from `s` on, given enough fuel. |
| Pagination.AsWrittenReturnsFirstPageOnly | dump.js:52-73 | As written, a query with more than 25 matches returns only the first 25, after one request. |
| Pagination.IntendedFetchesAll | dump.js:52-73 | The corrected fetch (continue while the page is full, first cursor 0) returns every matching item, in order, with no duplicates. This holds for any result count, including 0 and exact multiples of 25. |
| Pagination.SourceCursorSkipsItem | dump.js:68 | With the continue-test corrected but the default cursor left at 1, the item at index 25 is skipped and every other item is returned. |
| Paths.PiecesAreSlashFree | dump.js:175 | No piece of `split('/')` contains a slash. |
| Paths.SplitSlashCount | dump.js:175 | A string splits into a single piece exactly when it has no slash, and that piece is the string itself. |
| Paths.JoinSplit | dump.js:175 | Joining the pieces of a split with `/` gives back the original string. |
| Paths.SplitJoin | dump.js:175 | Splitting a join of slash-free pieces gives back the pieces. |
| Paths.SplitConcat | dump.js:179-181 | Splitting `a + "/" + b` gives the pieces of `a` followed by the pieces of `b`. |
| Paths.LastSegmentShape | dump.js:175 | The text after the last slash has no slash and is a suffix of the string. It is either the whole string or preceded by a slash, so it is the longest slash-free suffix. |
| Paths.LastSegmentIsLastPiece | dump.js:175 | That suffix is exactly the last piece of `split('/')`, as `.at(-1)` takes it. |
| Layout.SpaceKey | dump.js:175 | The space key has no slash and is a suffix of the space link. It is either the whole link or preceded by a slash. |
| Layout.RelativeDirSegments | dump.js:173-182 | The relative directory splits into the space key, then the pieces of the sanitized root title (only for a child), then the pieces of the sanitized page title. |
| Layout.DatedRoot | dump.js:101 | The snapshot root is the output directory plus one more level. That level is the first 10 characters of the ISO timestamp (all of it if shorter). |
| Layout.OutputLayout | dump.js:173-200 | When the date and the sanitized names have no slash, the PDF path splits into the output directory's pieces, then date, space, optional root title, page title, and page title + `.pdf`. |
| Layout.AttachmentDownloads | dump.js:206-211 | An attachment listing gives one transfer per attachment, in listing order. Each URL is the base URL followed by the download link. Each path is the page directory, a slash, and the unsanitized title. A listing with no value gives no transfers, because the loop throws. |
| Layout.AttachmentStaysInDir | dump.js:35-37 | An attachment file lands directly inside the page directory exactly when its unsanitized title has no slash. |
| Config.Resolve | dump.js:93-103 | Each option takes the first value set among the config, the defaults, and its literal (`label = "offline-copy"`, `label = "offline-copy-tree"`, `./output`, 10, 2). `BASE_URL` and `AUTH_HEADER` have no literal. Resolution throws exactly when `defaults` is missing and the config leaves some option unset. |
| Config.ResolveRoundTrip | dump.js:94-103 | A config that sets every option resolves to exactly those values under any defaults, including falsy ones such as 0. |
| Config.LiteralFallbacks | dump.js:98-103 | With nothing configured, the literal fallbacks apply, and the base URL and credential stay undefined. |
| Content.AsWrittenSearchOnePage | dump.js:108-110 | A search as the code runs it sends one request, to `<base>/rest/api/search` with the cql, `limit=25` and no `start`. It yields exactly that page's results, or no value when the request failed. So the `search` oracle of the queueing loops returns at most one page per query. |
| Content.AsWrittenListingOnePage | dump.js:207-208 | An attachment listing sends one request, to `<base>/rest/api/content/<id>/child/attachment` with `limit=25`. It yields exactly that page's attachments, or no value when the request failed. |
| Discovery.ExpandTreesOutcome | dump.js:134-142 | The tree loop throws exactly when some root's child query yields no value. Otherwise it queues one entry per root plus one per child returned. |
| Discovery.ExpandTreesSound | dump.js:134-142 | Every entry of the tree loop is either a root with no root attached, or a direct child under the root whose query returned it. No grandchildren are queued. |
| Discovery.ExpandTreesComplete | dump.js:134-142 | When every child query succeeds, every root and every child it returned is queued. |
| Discovery.ExpandTreesAppend | dump.js:134-142 | Roots are expanded in order: each root's block is queued before the next root's. |
| Discovery.OneTree | dump.js:135-141 | One root queues itself, then its children in the order returned, each under it. If its child query yields no value, only the root is queued and the loop throws. |
| Discovery.Discover | dump.js:109-142 | The queue starts with the single pages, in search order and with no root. It throws exactly when a search yields no value. If nothing throws, its length is the number of singles plus roots plus children. |
| Discovery.DiscoverMembership | dump.js:109-142 | When nothing throws, the entries with no root are exactly the singles and the roots. The entries with a root are exactly the direct children of the roots. |
| Discovery.FiveExportsScenario | dump.js:129-142 | Two single pages and one root with two children queue exactly five entries, in this order: the two pages, the root, then the two children under the root. |
| Workflow.QueuedJobs | dump.js:129-141 | Each queued entry gives one job, in queue order, for the same page. |
| Workflow.QueuedJobsLayout | dump.js:130-139 | Every job's directory is the dated root followed by the relative directory of its entry. |
| Workflow.FiveJobsScenario | dump.js:108-142 | The five-page scenario gives five jobs in that order. The root's job writes to `space/root` and each child's job to `space/root/child` under the dated root. |
| Retention.Eligible | dump.js:158-166 | The sweep's targets are at most as many as the listing's entries. A name is a target exactly when it is in the listing and expired. |
| Retention.EligibleAppend | dump.js:158-166 | Targets keep listing order: the targets of a listing `a + b` are those of `a` followed by those of `b`. |
| Retention.EligibleSingle | dump.js:159-165 | A one-entry listing targets its entry exactly when that entry is expired. With `EligibleAppend`, this fixes the targets as the expired entries in listing order, each as often as it is listed. |
| Retention.CleanupOutputDirectory | dump.js:154-171 | A failed listing removes nothing. Only expired entries are removed, in listing order. Without an error, every expired entry is removed. After a failed removal, the entries removed are the expired ones before the failing entry, and nothing after it is touched. |
| Retention.RetentionBoundary | dump.js:159-163 | A snapshot exactly `retentionDays × 86 400 000` ms old is kept. One a millisecond older is removed. A name that does not parse as a date is kept. |

## Left out

- HTTP transport and attachment streaming (dump.js:39-46, 55): network and
  stream I/O. The server is the `serve` oracle. Discovery takes each search
  as a `search(cql)` oracle standing for `paginated_fetch`'s result, so it
  holds for either pagination variant.
- Request headers and URL handling. The model does not cover header
  handling, `new URL` parsing, or query-string encoding. An undefined
  `BASE_URL` makes `new URL("undefined/rest/api/search")` throw; this is not
  modelled either, and downstream URLs take the base URL as a plain string.
- puppeteer-cluster (dump.js:112-126, 148-149): launch, the concurrency bound,
  the 120000 ms task timeout, `queue`, `idle` and `close`. This is
  third-party scheduling. The concurrency bound and per-task failure
  isolation are not modelled.
- Rendering (dump.js:187, 195-203): the page URL `baseUrl + url` that is
  opened, `goto`, the expand-macro script, and the A2 PDF with 10px
  margins. This is a foreign browser engine.
- Per-attachment download failures. A failed fetch or stream ends the
  remaining downloads of that page. `Layout.AttachmentDownloads` lists the
  transfers started as if each one completes.
- Filesystem primitives (`mkdir`, `open`, `readdir`, `rm`), winston logging
  (dump.js:13-32), reading `config.json` (dump.js:81), and `main`'s loop over
  configs and its timing (dump.js:78-91).
- The internals of `sanitize-filename`. It is a parameter with no assumed
  property. The layout lemmas that need slash-free names take that as a
  hypothesis.
- `Date.now`, `toISOString` and the `Date.parse` grammar. The clock reading
  and the timestamp are parameters. The parse is a partial function, with
  `None` for NaN.
- The sweep runs before `cluster.idle()` (dump.js:145-148), so it overlaps
  the exports. That interleaving is not modelled.
- JavaScript numbers are doubles. The model uses unbounded integers for
  cursors, limits and ages. It does not model fractional retention days or
  a missing `limit` in a response (`parseInt` giving NaN).
- Aborting the program (dump.js:84-86, 214): `main` has no try/catch, so a
  TypeError from the queueing loops or from `Config.Resolve` ends the whole
  program. `Queue.threw` and `Plan.threw` mark this abort, and
  `Config.Resolve` marks it with `None`. The model does not carry it on to
  the skipped sweep, the unreached `cluster.idle`/`close`, or the later
  configs.
- `path.sep` is taken to be `/`, the POSIX separator.
- Pagination.PaginatedFetch: the number of requests is bounded by `fuel`.
  A run that would issue more requests ends in `OutOfFuel`, while the source
  keeps recursing.

## Findings

| source | as written | input that shows it | evidently intended | confidence | as-written member | corrected member |
|---|---|---|---|---|---|---|
| dump.js:67 | `newResponse.results.size == 0`: arrays have no `size` property, so the test is `undefined == 0`. It is always false, and the fetch stops after the first page. | A query matching 30 results: one request returns 25 results, no second request is sent, and results 25 to 29 are lost. | Request the next page while the current page is full. Stop at a short or empty page. | medium (not executed) | Pagination.AsWrittenReturnsFirstPageOnly | Pagination.IntendedFetchesAll |
| dump.js:68 | The first cursor is taken as `"1"` when the request had no `start`. The server numbers results from 0, so the first page holds indexes 0 to 24. | 26 matches with the continue-test corrected: the second request asks for `start=26`, and the result at index 25 is never fetched. | Default the cursor to 0, the server's own default, so the second request starts at 25. | low (not executed; relies on the REST API numbering results from 0) | Pagination.SourceCursorSkipsItem | Pagination.IntendedFetchesAll |
