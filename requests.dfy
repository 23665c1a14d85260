/**
 * The request handling of `src/server.js` around the crawl: `validateRequest`
 * with its ordered checks, the defaults the `/parseFonts` handler applies
 * after it, the handler's answer built from the crawl's result, and the
 * concurrency rule of `/parsePopularFonts`.
 *
 * A request body is what `express.json()` parses: each field is a JSON
 * value, `Undefined` when the field is absent.
 */
module Requests {
  import opened Wrappers
  import opened Seqs
  import Crawlers

  /** A JSON value as JavaScript sees it; `Compound` is an array or an object. */
  datatype JsValue = Undefined | Null | Boolean(b: bool) | Number(n: real) | Text(s: string) | Compound

  /** JavaScript truthiness (a JSON number is never `NaN`; this model takes it finite). */
  predicate Truthy(v: JsValue) {
    match v
    case Undefined => false
    case Null => false
    case Boolean(b) => b
    case Number(n) => n != 0.0
    case Text(s) => s != ""
    case Compound => true
  }

  /** The fields of a `/parseFonts` body the handler reads. */
  datatype Body = Body(url: JsValue, pageLimit: JsValue, crawlRelative: JsValue)

  const NoUrl := "No url provided in request body"
  const BadPageLimit := "pageLimit must be an integer greater than 0"
  const BadCrawlRelative := "crawlRelative must be either false, \"breadth-first\", or \"depth-first\""

  /** `requestBody.pageLimit && (typeof requestBody.pageLimit !== 'number' || requestBody.pageLimit < 1)`. */
  predicate RejectsPageLimit(pageLimit: JsValue) {
    Truthy(pageLimit) && (!pageLimit.Number? || pageLimit.n < 1.0)
  }

  /** `requestBody.crawlRelative && !valid.includes(requestBody.crawlRelative)`. */
  predicate RejectsCrawlRelative(crawlRelative: JsValue) {
    Truthy(crawlRelative) && crawlRelative != Text("breadth-first") && crawlRelative != Text("depth-first")
  }

  /**
   * `validateRequest`: the message of the first check the body fails, in
   * the order url, pageLimit, crawlRelative; `None` (`undefined`) when it
   * passes all three.
   */
  function ValidateRequest(body: Body): (r: Option<string>)
    ensures r.None? <==> Truthy(body.url) && !RejectsPageLimit(body.pageLimit) && !RejectsCrawlRelative(body.crawlRelative)
    ensures r == Some(NoUrl) <==> !Truthy(body.url)
    ensures r == Some(BadPageLimit) <==> Truthy(body.url) && RejectsPageLimit(body.pageLimit)
    ensures r == Some(BadCrawlRelative) <==>
      Truthy(body.url) && !RejectsPageLimit(body.pageLimit) && RejectsCrawlRelative(body.crawlRelative)
  {
    if !Truthy(body.url) then Some(NoUrl)
    else if RejectsPageLimit(body.pageLimit) then Some(BadPageLimit)
    else if RejectsCrawlRelative(body.crawlRelative) then Some(BadCrawlRelative)
    else None
  }

  /** What the handler passes to `crawl` once the body is valid. */
  datatype CrawlSettings = CrawlSettings(url: JsValue, pageLimit: real, policy: Crawlers.Policy)

  /**
   * Validation followed by the handler's defaults: `pageLimit || 1` and
   * `crawlRelative || false`, the latter read by `crawl` as no expansion,
   * breadth-first for `'breadth-first'` and depth-first otherwise.
   */
  function ParseCrawlRequest(body: Body): (r: Result<CrawlSettings, string>)
    ensures r.Failure? <==> ValidateRequest(body).Some?
    ensures r.Failure? ==> r.error == ValidateRequest(body).value
    ensures r.Success? ==> r.value.url == body.url && r.value.pageLimit >= 1.0
    ensures r.Success? ==> r.value.pageLimit == if Truthy(body.pageLimit) then body.pageLimit.n else 1.0
    ensures r.Success? ==> (r.value.policy == Crawlers.Disabled <==> !Truthy(body.crawlRelative))
    ensures r.Success? ==> (r.value.policy == Crawlers.BreadthFirst <==> body.crawlRelative == Text("breadth-first"))
    ensures r.Success? ==> (r.value.policy == Crawlers.DepthFirst <==> body.crawlRelative == Text("depth-first"))
  {
    match ValidateRequest(body)
    case Some(message) => Failure(message)
    case None =>
      var pageLimit := if Truthy(body.pageLimit) then body.pageLimit.n else 1.0;
      var policy :=
        if !Truthy(body.crawlRelative) then Crawlers.Disabled
        else if body.crawlRelative == Text("breadth-first") then Crawlers.BreadthFirst
        else Crawlers.DepthFirst;
      Success(CrawlSettings(body.url, pageLimit, policy))
  }

  /** A body that fails several checks gets the message of the first. */
  lemma FirstFailureReported(body: Body)
    requires !Truthy(body.url) || RejectsPageLimit(body.pageLimit)
    ensures ValidateRequest(body) != Some(BadCrawlRelative)
    ensures ParseCrawlRequest(body).Failure?
  {
  }

  /** Every falsy `pageLimit` (absent, `null`, `false`, `0`, `""`) passes and becomes a budget of one page. */
  lemma FalsyPageLimitIsOne(url: string, pageLimit: JsValue, crawlRelative: JsValue)
    requires url != "" && !RejectsCrawlRelative(crawlRelative)
    requires !Truthy(pageLimit)
    ensures ParseCrawlRequest(Body(Text(url), pageLimit, crawlRelative)).Success?
    ensures ParseCrawlRequest(Body(Text(url), pageLimit, crawlRelative)).value.pageLimit == 1.0
  {
  }

  /**
   * A fractional `pageLimit` of at least 1 is accepted, although the message
   * speaks of integers, and the crawl's budget rounds it up.
   */
  lemma FractionalPageLimit()
    ensures ParseCrawlRequest(Body(Text("https://example.com"), Number(2.5), Undefined)) ==
      Success(CrawlSettings(Text("https://example.com"), 2.5, Crawlers.Disabled))
    ensures Crawlers.Cap(2.5) == 3
  {
    assert (-2.5).Floor == -3;
  }

  /** A numeric string is not a number: `"5"` is refused. */
  lemma TextPageLimitRefused()
    ensures ValidateRequest(Body(Text("https://example.com"), Text("5"), Undefined)) == Some(BadPageLimit)
  {
  }

  // ---------------------------------------------------------------------------
  // The /parseFonts handler

  /**
   * The handler's answer: status 400 or 500 with a reason, 200 with the
   * fonts, or 200 with no `fontFamilies` at all when the crawl's `err` is
   * falsy.
   */
  datatype FontsResponse =
    | BadRequest(reason: string)
    | ServerError(reason: string)
    | Ok(fontFamilies: seq<string>)
    | OkWithoutFonts
    | UrlNotAString

  /**
   * The `/parseFonts` handler with the browser replaced by `fontsOf` and
   * `linksOf`. `parseUrl` needs a string: on any other truthy `url` it
   * throws, and the model answers `UrlNotAString`. The handler tests
   * `scrapeResults.err` for truthiness, so a seed error with an empty
   * message (`new Error()`) falls through to the 200 answer, whose
   * `fontFamilies` is then absent.
   */
  method ParseFonts(body: Body, fontsOf: Crawlers.Source, linksOf: Crawlers.Source) returns (response: FontsResponse)
    ensures response.BadRequest? <==> ValidateRequest(body).Some?
    ensures response.BadRequest? ==> response.reason == ValidateRequest(body).value
    ensures response.UrlNotAString? <==> ValidateRequest(body).None? && !body.url.Text?
    ensures response.ServerError? ==>
      body.url.Text? && response.reason != "" && fontsOf(body.url.s) == Failure(response.reason)
    ensures response.OkWithoutFonts? ==> body.url.Text? && fontsOf(body.url.s) == Failure("")
    ensures response.Ok? ==> NoDup(response.fontFamilies)
    ensures (response.Ok? || response.ServerError? || response.OkWithoutFonts?) ==>
      var settings := ParseCrawlRequest(body).value;
      var crawled := Crawlers.Run(Crawlers.Start(body.url.s), settings.pageLimit, settings.policy, fontsOf, linksOf);
      response == (match crawled.outcome
        case Fonts(fonts) => Ok(fonts)
        case Err(message) => if message != "" then ServerError(message) else OkWithoutFonts)
  {
    var requestError := ValidateRequest(body);
    if requestError.Some? {
      return BadRequest(requestError.value);
    }
    var settings := ParseCrawlRequest(body).value;
    if !body.url.Text? {
      return UrlNotAString;
    }
    var scrapeResults, calls := Crawlers.Crawl(body.url.s, settings.pageLimit, settings.policy, fontsOf, linksOf);
    match scrapeResults
    case Err(message) =>
      response := if message != "" then ServerError(message) else OkWithoutFonts;
    case Fonts(fonts) =>
      response := Ok(fonts);
  }

  // ---------------------------------------------------------------------------
  // The /parsePopularFonts concurrency parameter

  /** A JavaScript number as `Number(...)` can produce it. */
  datatype JsNumber = NaN | Finite(value: real) | Infinity(negative: bool)

  const DefaultConcurrency := 2.0
  const BadConcurrency := "If provided, concurrency must be a number greater than 0"

  /**
   * The worker-pool size: `2` when the `concurrency` query parameter is
   * absent, otherwise its value as a number, refused only when it is `NaN`
   * or zero.
   */
  function PoolSize(concurrency: Option<JsNumber>): (r: Result<JsNumber, string>)
    ensures concurrency.None? ==> r == Success(Finite(DefaultConcurrency))
    ensures r.Failure? <==> concurrency == Some(NaN) || concurrency == Some(Finite(0.0))
    ensures r.Failure? ==> r.error == BadConcurrency
    ensures r.Success? && concurrency.Some? ==> r.value == concurrency.value
  {
    var size := if concurrency.None? then Finite(DefaultConcurrency) else concurrency.value;
    if size == NaN || size == Finite(0.0) then Failure(BadConcurrency) else Success(size)
  }

  /** A negative size, and an infinite one, pass the check. */
  lemma NegativeConcurrencyAccepted(c: real)
    requires c < 0.0
    ensures PoolSize(Some(Finite(c))) == Success(Finite(c))
    ensures PoolSize(Some(Infinity(true))).Success?
    ensures PoolSize(Some(Infinity(false))) == Success(Infinity(false))
  {
  }
}
