# scraper-rs font scraper, modelled in Dafny

The scraper is an Express server that collects the font families used by web
pages. It has two routes:

- `POST /parseFonts` validates its body and crawls from a seed URL. The crawl
  follows relative links breadth-first or depth-first within a page budget,
  and answers with the deduplicated fonts found.
- `GET /parsePopularFonts` walks a gallery of popular sites. It queues the
  first 100 landing pages. For each one it finds the project's link, scrapes
  that project's fonts and streams every font not sent before.

Fonts come from two extraction passes over a page: style-sheet rules, and
`style` attributes. Links come from a relative-URL classifier applied to
the page's anchors.

This project models the core of that program. The browser is replaced by
functions and lists.

- `Wrappers` holds `Option` and `Result`.
- `Seqs` models a JavaScript `Set` (and a `{[key]: true}` object) as an
  insertion-ordered list without duplicates.
- `Crawlers` models the crawl loop.
  - `Crawl` is the imperative loop.
  - `Run` and `Iterate` state, one iteration at a time, what the loop computes.
  - A ghost trace of calls into the document source records what was fetched
    and in which order.
- `Scrapers` models the string-level extraction rules:
  - the relative-URL regex;
  - `", "` splitting of font stacks;
  - the two extraction passes;
  - link deduplication;
  - landing-page and site-link selection.
- `Requests` models request validation, the `/parseFonts` handler and the
  concurrency rule.
- `Harvest` models the `/parsePopularFonts` producer loop, its worker, and the
  `sentFonts` stream as a class.

Where the code and the prose around it differ, the model follows the code:

- A non-timeout error inside the worker's `try` is swallowed, not fatal.
- Depth-first crawling visits a page's links last-to-first (`VisitOrders`).
- `scrapeFonts` can return a font twice, once from each pass.
- A negative concurrency is accepted.
- A fractional `pageLimit` of at least 1 is accepted, and the crawl's budget
  is its ceiling.

## Model

| member | source | states |
|---|---|---|
| Seqs.AddAll | src/helpers/crawlers.js:22 | Adding values to an insertion-ordered set keeps the old contents as a prefix and stays duplicate-free. The elements become the union. |
| Seqs.Dedup | src/helpers/scrapers.js:35 | `Array.from(new Set(xs))` has no duplicates and exactly the elements of `xs`. |
| Seqs.AddAllAppend | src/helpers/crawlers.js:22 | Adding two runs one after the other is adding their concatenation. |
| Seqs.AddEach | src/helpers/crawlers.js:22 | The `forEach(add)` loop leaves the set holding `AddAll(acc, xs)`. |
| Crawlers.Cap | src/helpers/crawlers.js:51 | The visit count at which the budget is reached is the least natural number not below `maxRequests`: 0 when it is 0 or less, 3 for 2.5. |
| Crawlers.LimitAtCap | src/helpers/crawlers.js:51 | `pageLimitReached` holds exactly when the number of visited URLs is at least `Cap(maxRequests)`. |
| Crawlers.PageLimitReached | src/helpers/crawlers.js:51 | `pageLimitReached`: the number of keys of `visitedSites` is at least `maxRequests` (compared as a real, so 2.5 needs three). `LimitAtCap` restates it as "at least `Cap(maxRequests)` visited". |
| Crawlers.CapOfWholeBudget | src/helpers/crawlers.js:51 | For a whole, non-negative budget, the cap is the budget itself. |
| Crawlers.EnqueueBreadthFirst | src/helpers/crawlers.js:28-36 | Breadth-first puts the admissible links (unvisited, limit not reached) in front of the frontier, reversed. Popping from the end then visits the waiting URLs first and the links in page order (FIFO). |
| Crawlers.EnqueueDepthFirst | src/helpers/crawlers.js:28-36 | Depth-first appends the admissible links after the frontier. They are popped before anything waiting, last link first (LIFO). |
| Crawlers.EnqueueLinks | src/helpers/crawlers.js:28-36 | The `links.forEach` loop computes `Enqueue`. |
| Crawlers.Iterate | src/helpers/crawlers.js:14-45 | One turn never takes the visit count past the cap. A turn that continues either marks a new URL or shrinks the frontier, so the loop terminates. |
| Crawlers.Recover | src/helpers/crawlers.js:37-45 | The `catch` block ends the crawl exactly when `visitedSites` has no keys, resolving to `{err: message}` with the loop state left as it was; otherwise the loop goes on from the unchanged state. |
| Crawlers.IterateEnds | src/helpers/crawlers.js:14-45 | A turn never unmarks a URL. A turn that ends the crawl leaves `visitedSites` as it found it, resolves `{fonts}` to the fonts gathered so far, and resolves `{err}` only while nothing is visited. |
| Crawlers.Run | src/helpers/crawlers.js:14-48 | The `while` loop to its end: a `{fonts}` result is the accumulated `fontsToReturn` of the state it stops in. |
| Crawlers.RunVisits | src/helpers/crawlers.js:14-46 | Running the loop never unmarks a URL and stops with at most `Cap(maxRequests)` URLs marked; it ends in `{err}` only with no URL marked. |
| Crawlers.Crawl | src/helpers/crawlers.js:7-49 | The loop returns the outcome and trace of `Run` from the seed. The fonts are duplicate-free and are the union of every successful `scrapeFonts`. An error comes only from the seed's single fetch. Link expansions are at most the cap (with `VisitBudget`, which applies to this trace, a URL is fetched only while it is unmarked and the limit is not reached). A marked URL is never refetched. Only a freshly fetched URL is marked. |
| Crawlers.IterateKeeps | src/helpers/crawlers.js:15-45 | Each iteration preserves the crawl invariant, and an iteration that ends the crawl leaves the final guarantees. |
| Crawlers.RunKeeps | src/helpers/crawlers.js:14-46 | From any state satisfying the invariant, the whole loop ends with the final guarantees. |
| Crawlers.CrawlIsSound | src/helpers/crawlers.js:7-49 | The crawl from the seed ends with the final guarantees. |
| Crawlers.VisitBudget | src/helpers/crawlers.js:17-29 | The visited URLs are exactly those marked after a `scrapeRelativeLinks` call. Their number equals the number of link expansions and is at most the cap. Every `scrapeFonts` call happens while its URL is unmarked and fewer URLs than the cap are marked (the `pageLimitReached` gate). |
| Crawlers.NeverRefetched | src/helpers/crawlers.js:16-24 | No URL is passed to `scrapeFonts` after it was marked visited. Every mark directly follows a successful fetch of that URL. |
| Crawlers.FontsAreUnion | src/helpers/crawlers.js:20-22 | The returned fonts have no duplicates and are the union of the results of every successful `scrapeFonts` call. |
| Crawlers.OnlySeedFailureIsFatal | src/helpers/crawlers.js:37-45 | `{err}` is returned only when the seed's own fetch failed, after that one call, with its message. Once the seed's fonts were scraped, the crawl always returns fonts. |
| Crawlers.SeedFailure | src/helpers/crawlers.js:37-44 | With a positive budget, a failing seed gives `{err}` with its message, and nothing else is called. |
| Crawlers.SinglePage | src/helpers/crawlers.js:23 | With `maxRequests === 1`, or expansion disabled and a positive budget, only the seed is fetched. `scrapeRelativeLinks` is never called, nothing is marked, and the result is the seed's deduplicated fonts or its error. |
| Crawlers.BreadthFirstCalls | src/helpers/crawlers.js:14-36 | On any site where the seed links to A and B and A links to C (four distinct URLs, no fonts), with a budget of at least 4, breadth-first makes exactly the calls for seed, A, B, C in that order. |
| Crawlers.DepthFirstCalls | src/helpers/crawlers.js:14-36 | On the same site and budget, depth-first makes the calls for seed, B, A, C. |
| Crawlers.VisitOrders | src/helpers/crawlers.js:30-34 | On that site, breadth-first visits seed, A, B, C. Depth-first visits seed, B, A, C: a page's links come out last-to-first. |
| Scrapers.RelativeIffNoAbsolutePrefix | src/helpers/scrapers.js:94 | An href is accepted exactly when it starts with none of `www.`, `#`, `tel:`, `mailto:`, `http(s)://`, `ftp(s)://`, `//`, and with no drive root. |
| Scrapers.IsRelativeUrl | src/helpers/scrapers.js:94-102 | The test `href.match(relativeUrlRegex)`: no alternative of the negative lookahead matches at the start of the href. `RelativeIffNoAbsolutePrefix` spells out which prefixes are refused; the `href &&` guard before it is part of `Qualifies`. |
| Scrapers.AcceptedByStart | src/helpers/scrapers.js:94 | An href whose first two characters begin no alternative, and which has no drive root, is accepted. |
| Scrapers.RelativeForms | src/helpers/scrapers.js:76-94 | `./path` is always accepted. `/path` is accepted exactly when `path` does not start with `/`. |
| Scrapers.DocumentedAccepted | src/helpers/scrapers.js:83-86 | `./funky/town.html`, `/funky/town.html` and `funky/town.html` are accepted. |
| Scrapers.DocumentedRefused | src/helpers/scrapers.js:88-92 | The `https://`, `//`, `mailto:` and `#` examples are refused. |
| Scrapers.SchemeIsCaseSensitive | src/helpers/scrapers.js:94 | `HTTP://…` is accepted and `http://…` refused: the regex has no `i` flag. |
| Scrapers.RefusedStaysRefused | src/helpers/scrapers.js:94 | Refusal depends only on a prefix, so an extension of a refused href is refused. |
| Scrapers.Split | src/helpers/scrapers.js:27 | Splitting on `", "` gives at least one piece, and no piece contains `", "`. |
| Scrapers.JoinSplit | src/helpers/scrapers.js:27 | Joining the pieces with `", "` gives back the value. |
| Scrapers.SplitJoin | src/helpers/scrapers.js:27 | Splitting undoes joining pieces that contain no separator. |
| Scrapers.StackExample | src/helpers/scrapers.js:27 | `"Helvetica, Arial, sans-serif"` splits into its three fonts. |
| Scrapers.InaccessibleSkipped | src/helpers/scrapers.js:17-22 | A sheet whose `cssRules` throws adds nothing and does not disturb the sheets around it. |
| Scrapers.UndeclaredSkipped | src/helpers/scrapers.js:25 | A rule without a style, or with an empty `font-family`, adds nothing. |
| Scrapers.AddRules | src/helpers/scrapers.js:24-32 | The rules loop of one sheet adds every piece of every declaring rule, in order. |
| Scrapers.ScrapeSheets | src/helpers/scrapers.js:10-35 | The sheet pass returns every piece of every truthy `font-family` of every readable sheet, once each, in first-seen order. |
| Scrapers.ScrapeTags | src/helpers/scrapers.js:46-60 | The tag pass returns every piece of every element's `font-family`, once each, in first-seen order. |
| Scrapers.EmptyStyleValue | src/helpers/scrapers.js:52-58 | The tag pass has no truthiness check, so an empty `font-family` contributes the empty font name. |
| Scrapers.ScrapeFonts | src/helpers/scrapers.js:114-121 | The result is the sheet pass followed by the tag pass. A font occurs once for each pass that found it, so a font found by both occurs twice. |
| Scrapers.RelativeHrefs | src/helpers/scrapers.js:100-105 | A computed href is collected exactly when some link with a non-empty, relative `href` attribute has it. |
| Scrapers.BlankAttributeIgnored | src/helpers/scrapers.js:101-102 | A link whose `href` attribute is missing or empty never contributes. |
| Scrapers.ScrapeRelativeLinks | src/helpers/scrapers.js:71-107 | Returns `Array.from` of the set of qualifying computed hrefs: each once, in first-seen order, and no other value (with `RelativeHrefs`, exactly the hrefs of links whose attribute is relative). No links gives `[]`. |
| Scrapers.LandingPages | src/helpers/scrapers.js:140-145 | One href per `a.preview` element, in document order. The result is `[]` exactly when there is none, and every href comes from such an element. |
| Scrapers.LandingPagesAppend | src/helpers/scrapers.js:144 | The selection of consecutive parts of a document is the concatenation of their selections. |
| Scrapers.FirstSelected | src/helpers/scrapers.js:127 | `querySelector` finds the first matching element in document order, or nothing when no element matches. |
| Scrapers.GrabLink | src/helpers/scrapers.js:126-131 | `null` exactly when there is no `a.site-link`. It throws "Expected an 'anchor' element." exactly when the first match is not an HTML anchor. Otherwise it gives the href of the first match, an anchor with no earlier `a.site-link`. |
| Requests.ValidateRequest | src/server.js:146-159 | The checks run in order: falsy url, then a truthy `pageLimit` that is not a number or is below 1, then a truthy `crawlRelative` other than the two policies. The result is the first failing check's message, `undefined` when all pass. |
| Requests.ParseCrawlRequest | src/server.js:25-34 | A body is refused exactly when validation fails, with its message. Otherwise the budget is `pageLimit \|\| 1`: the body's number when it is truthy, 1 for every falsy value, and at least 1 either way. Expansion is off exactly for a falsy `crawlRelative`. `'breadth-first'` and `'depth-first'` select their policies. |
| Requests.FirstFailureReported | src/server.js:147-153 | A body failing the url or `pageLimit` check never gets the `crawlRelative` message, and is refused. |
| Requests.FalsyPageLimitIsOne | src/server.js:34 | Every falsy `pageLimit` (absent, `null`, `false`, 0, `""`) passes and becomes 1. |
| Requests.FractionalPageLimit | src/server.js:151-153 | `pageLimit` 2.5 is accepted, and the crawl's cap for it is 3. |
| Requests.TextPageLimitRefused | src/server.js:151 | A string `"5"` is not a number and is refused. |
| Requests.ParseFonts | src/server.js:24-50 | The handler answers 400 exactly on a validation error, with its message. With a string url it answers 200 with the crawl's fonts, which are duplicate-free, or, when the seed failed, 500 with its message. A seed error with an empty message is falsy, so the answer is then 200 with no `fontFamilies`. |
| Requests.PoolSize | src/server.js:53-64 | An absent concurrency is 2. The 400 message is returned exactly for `NaN` or 0. Any other value is kept. |
| Requests.NegativeConcurrencyAccepted | src/server.js:62 | Negative concurrencies, and both `-Infinity` and `Infinity`, pass the check and are kept. |
| Harvest.ListedGrows | src/server.js:114-131 | Walking further through the gallery only appends landing pages. |
| Harvest.Push | src/server.js:124-129 | The `forEach` pushes landing pages in order, one count per push, and never past `pageLimit`. |
| Harvest.Produce | src/server.js:114-131 | The queue holds exactly the first `pageLimit` landing pages of the gallery. The loop stops at the first gallery page that completes the count. |
| Harvest.DryGalleryNeverFills | src/server.js:117-131 | When the gallery stops listing pages before `pageLimit` landing pages, the count stays below `pageLimit` after any number of gallery pages, so the producer loop never exits. |
| Harvest.Classify | src/server.js:68-87 | A task scrapes exactly when its landing page loads, the first `a.site-link` is an anchor with a non-empty href, and that project page scrapes. The fonts are then `scrapeFonts` of that href (`ProjectPage`). It gets no link exactly when the selection finds none or an empty href. A `TimeoutError` from loading the landing page or scraping the project page ends as timed out. Any other error from either, and the non-anchor throw, ends as swallowed with its message. None is an error of the handler. |
| Harvest.HarvestedFromProjects | src/server.js:81-94 | Every font handed to the stream comes from a task that scraped, and is in the `scrapeFonts` result of the project page that task's landing page names. |
| Harvest.FontStream.constructor | src/server.js:56 | The stream starts with nothing sent and nothing written. |
| Harvest.FontStream.Emit | src/server.js:89-94 | Writes exactly the fonts not yet sent, in order. Each font is written at most once, and afterwards every font of the list is in `sentFonts`. |
| Harvest.FontStream.RunTask | src/server.js:67-95 | One worker call writes the fonts its outcome hands over, through the corrected `sentFonts` of `FontStream.Emit` (see Findings). No link, a timeout or a swallowed error writes nothing and leaves `sentFonts` unchanged. |
| Harvest.FontStream.RunTasks | src/server.js:66-95 | Running the tasks in push order writes `AddAll` of everything they hand over, and keeps the at-most-once invariant. Writes go through the corrected `sentFonts` (see Findings). |
| Harvest.EmitOnObjectLiteral | src/server.js:89-94 | Emission on the object literal as declared only ever extends what was written and recorded. |
| Harvest.InheritedNameNeverWritten | src/server.js:90 | A font named after an `Object.prototype` property is never written by the emission as declared. |
| Harvest.ObjectLiteralAtMostOnce | src/server.js:89-94 | On the object literal as declared, a font is still written at most once, and every written font is recorded in `sentFonts`. |
| Harvest.ObjectLiteralAgrees | src/server.js:89-94 | When no scraped font is named after an `Object.prototype` property and `sentFonts` records exactly what was written, the declared emission records every font and writes exactly `AddAll` of the written fonts and the new ones, as the corrected stream does. |
| Harvest.ToStringFont | src/server.js:89-94 | A page whose only font is `toString`: the declared emission writes nothing, while the corrected stream writes it. |
| Harvest.ParsePopularFonts | src/server.js:52-131 | The handler answers 400 exactly when the concurrency check fails, before any task. Otherwise, assuming the response stays open (see Left out on `drain`), it queues the first 100 landing pages, runs every task, and writes every harvested font exactly once through the corrected `sentFonts` (see Findings; as written, a font named after an `Object.prototype` property is never written). |

## Left out

- Browser I/O is left out: puppeteer launch, `newPage`, `goto`, `evaluate`, `close` and `browser.close`. The crawl takes `fontsOf` and `linksOf` instead, and the harvest takes `catalog`, `landingOf` and `fontsOf`. A thrown error is a `Failure` carrying its message or its kind.
- Real DOM semantics are left out. `document.styleSheets`, `querySelectorAll('[style*="font-family"]')`, `document.links` and the computed `link.href` are given as lists. The `!tags` and `anchors || []` guards are not modelled, because `querySelectorAll` always returns a list.
- The `async.queue` worker pool is not modelled: its concurrency, `drain`, and `error`/`kill` handler. The worker catches every error it can raise, so the error handler is unreachable from it.
- Harvest.FontStream.RunTasks: runs the tasks one after another in push order. Concurrent workers can interleave differently, and the order of writes under such interleavings is not modelled.
- Harvest.ParsePopularFonts: inherits the sequential run of `RunTasks`. A landing-gallery page whose load throws in the producer is not modelled; the source rejects the handler in that case.
- Harvest.ParsePopularFonts: its every-font-exactly-once promise is stated for the corrected `sentFonts` (a set of own keys). The emission as written on `{}` skips fonts named after `Object.prototype` properties; `EmitOnObjectLiteral` models that and the Findings table records it.
- Harvest.ParsePopularFonts: assumes every pushed task runs. The `async` library is not part of this model; a negative or infinite concurrency passes the check at `src/server.js:62`, and what the library's queue does with it (possibly starting no worker at all, so that nothing is written and `drain` never fires) is not modelled.
- Harvest.ParsePopularFonts: assumes the response stays open until every landing page is queued and run. The `drain` callback (`src/server.js:98-102`) closes the browser and ends the response whenever the queue goes idle. It could therefore fire while the producer is still waiting for the next gallery page, before 100 landing pages are queued. The library's timing is not modelled, so the model cannot show this happening or rule it out.
- Harvest.Produce: requires that the gallery lists at least `pageLimit` landing pages by page `horizon`. The source loops forever when it does not: `DryGalleryNeverFills` shows that the loop's guard then never becomes false, but `Produce` itself is not run on such a gallery.
- `async.parallel` in `scrapeFonts` is not modelled. Its result order (sheets, then tags) is kept.
- Express routing, status codes and JSON formatting are represented by response datatypes. `res.write` is represented by the sequence of written fonts, and `app.listen` is left out.
- Requests.ParseFonts: `parseUrl(url).href` normalisation is not modelled, and URLs are opaque strings. A truthy non-string url, on which `parseUrl` throws, is answered with `UrlNotAString`.
- Requests.ParseFonts: a thrown value that is not an `Error` has an `undefined` message; the model represents it, like an empty message, by `""`, which the handler answers with 200 and no `fontFamilies`.
- Requests.ParseCrawlRequest: a `pageLimit` is a finite number. `express.json()` reads `1e400` as `Infinity`, which validation accepts; `pageLimitReached` is then never true and the crawl has no budget. That input is not modelled, and neither is a crawl without a budget.
- Crawlers.Crawl: `maxRequests` is a finite real, so the crawl always has the budget `Cap(maxRequests)`; the infinite budget above, under which the source's crawl need not terminate, is not modelled.
- Requests.PoolSize: the string-to-number conversion `Number(req.query.concurrency)` is not modelled. The parameter is taken as the number it converts to.
- Crawlers.Crawl: `visitedSites` is a set of own keys. On the object literal, a seed URL equal to an `Object.prototype` property name (such as `toString`) would read as already visited. Links are absolute URLs and never collide.
- Console logging and colour codes are left out.

## Findings

| source | as written | input that shows it | evidently intended | confidence | as-written member | corrected member |
|---|---|---|---|---|---|---|
| src/server.js:56-94 | `sentFonts` is the object literal `{}`, so `!sentFonts[font]` is false for every property inherited from `Object.prototype` | a project page whose only font family is `toString` (or `constructor`, `valueOf`, …): nothing is written for it | every scraped font is written once (a `Set` or `Object.create(null)`) | low impact, not executed | Harvest.EmitOnObjectLiteral (Harvest.InheritedNameNeverWritten, Harvest.ToStringFont) | Harvest.FontStream.Emit |
