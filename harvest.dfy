/**
 * The `/parsePopularFonts` handler of `src/server.js`: a producer loop
 * that walks the gallery page by page and queues landing pages until it
 * has `pageLimit` of them, and a worker that, for each landing page, finds
 * the project's link, scrapes its fonts and writes every font not yet sent.
 *
 * The browser is replaced by functions: `catalog(n)` is the list of landing
 * pages of gallery page `n`, `landingOf(url)` the document of a landing page (or
 * the fault loading it raised) and `fontsOf(url)` the result of
 * `scrapeFonts` on a project page. The queue runs its tasks one after
 * another, in the order they were pushed.
 */
module Harvest {
  import opened Wrappers
  import opened Seqs
  import Scrapers
  import Requests

  /** The number of landing pages one request queues. */
  const PageLimit := 100

  /** What a call into the browser can throw. */
  datatype Fault = TimeoutError | Thrown(message: string)

  /** A gallery page number to what `scrapeLandingPages` returns for that page. */
  type Catalog = nat -> seq<string>

  // ---------------------------------------------------------------------------
  // The producer

  /** The landing pages of gallery pages `1..pages`, in order. */
  function Listed(catalog: Catalog, pages: nat): seq<string>
  {
    if pages == 0 then [] else Listed(catalog, pages - 1) + catalog(pages)
  }

  /** Walking further through the gallery only appends landing pages. */
  lemma {:induction false} ListedGrows(catalog: Catalog, m: nat, n: nat)
    requires m <= n
    ensures Listed(catalog, m) <= Listed(catalog, n)
    decreases n - m
  {
    if m < n {
      ListedGrows(catalog, m, n - 1);
    }
  }

  /** The first `n` elements of `s`, or all of them when there are fewer. */
  function Take(s: seq<string>, n: nat): (r: seq<string>)
    ensures r <= s && |r| == if |s| <= n then |s| else n
  {
    if |s| <= n then s else s[..n]
  }

  /** Cutting before appending more changes nothing once the cut is taken again. */
  lemma TakeAppend(s: seq<string>, t: seq<string>, n: nat)
    ensures Take(Take(s, n) + t, n) == Take(s + t, n)
  {
    if |s| > n {
      assert (s[..n] + t)[..n] == s[..n] == (s + t)[..n];
    }
  }

  /**
   * The producer's `landingPages.forEach`: push each landing page, counting
   * it, while fewer than `pageLimit` have been pushed.
   */
  method Push(queued: seq<string>, landingPagesScraped: nat, landingPages: seq<string>, pageLimit: nat)
    returns (queued': seq<string>, landingPagesScraped': nat)
    requires landingPagesScraped == |queued| <= pageLimit
    ensures landingPagesScraped' == |queued'| <= pageLimit
    ensures queued' == Take(queued + landingPages, pageLimit)
  {
    queued', landingPagesScraped' := queued, landingPagesScraped;
    for j := 0 to |landingPages|
      invariant landingPagesScraped' == |queued'| <= pageLimit
      invariant queued' == Take(queued + landingPages[..j], pageLimit)
    {
      assert (queued + landingPages[..j + 1])[..|queued| + j] == queued + landingPages[..j];
      if landingPagesScraped' < pageLimit {
        landingPagesScraped' := landingPagesScraped' + 1;
        queued' := queued' + [landingPages[j]];
      }
    }
    assert landingPages[..|landingPages|] == landingPages;
  }

  /**
   * The producer loop: fetches gallery pages 1, 2, ... and pushes their
   * landing pages while fewer than `pageLimit` have been pushed. The source
   * loops for ever when the gallery holds fewer landing pages than that;
   * `horizon` is a gallery page by which it holds enough.
   */
  method Produce(catalog: Catalog, pageLimit: nat, ghost horizon: nat)
    returns (queued: seq<string>, galleryPage: nat)
    requires pageLimit <= |Listed(catalog, horizon)|
    ensures queued == Listed(catalog, horizon)[..pageLimit]
    ensures 1 <= galleryPage <= horizon + 1 && pageLimit <= |Listed(catalog, galleryPage - 1)|
    ensures galleryPage >= 2 ==> |Listed(catalog, galleryPage - 2)| < pageLimit
  {
    galleryPage := 1;
    var landingPagesScraped := 0;
    queued := [];
    ghost var listed: seq<string> := [];
    ghost var previous: seq<string> := [];
    while landingPagesScraped < pageLimit
      invariant 1 <= galleryPage <= horizon + 1
      invariant listed == Listed(catalog, galleryPage - 1)
      invariant landingPagesScraped == |queued| <= pageLimit
      invariant queued == Take(listed, pageLimit)
      invariant galleryPage >= 2 ==> previous == Listed(catalog, galleryPage - 2) && |previous| < pageLimit
      decreases horizon + 1 - galleryPage
    {
      if galleryPage - 1 == horizon {
        assert false;
      }
      var landingPages := catalog(galleryPage);
      queued, landingPagesScraped := Push(queued, landingPagesScraped, landingPages, pageLimit);
      TakeAppend(listed, landingPages, pageLimit);
      assert Listed(catalog, galleryPage) == listed + landingPages;
      previous, listed := listed, listed + landingPages;
      galleryPage := galleryPage + 1;
    }
    ListedGrows(catalog, galleryPage - 1, horizon);
    assert Listed(catalog, horizon)[..pageLimit] == listed[..pageLimit];
  }

  /**
   * The producer's guard on a gallery that runs dry: when no page after `k`
   * lists anything and pages `1..k` list fewer than `pageLimit` landing
   * pages, the count after any number `n` of gallery pages (which `Produce`
   * keeps equal to `|Take(Listed(catalog, n), pageLimit)|`) stays below
   * `pageLimit`, so `while (landingPagesScraped < pageLimit)` never exits.
   */
  lemma {:induction false} DryGalleryNeverFills(catalog: Catalog, pageLimit: nat, k: nat, n: nat)
    requires |Listed(catalog, k)| < pageLimit
    requires forall p: nat :: p > k ==> catalog(p) == []
    ensures |Take(Listed(catalog, n), pageLimit)| < pageLimit
    decreases n
  {
    if n > k {
      DryGalleryNeverFills(catalog, pageLimit, k, n - 1);
      assert Listed(catalog, n) == Listed(catalog, n - 1) + [];
    } else {
      ListedGrows(catalog, n, k);
    }
  }

  // ---------------------------------------------------------------------------
  // The worker

  /** How one task ends. */
  datatype TaskOutcome =
    | NoLink                  // the landing page names no project
    | TimedOut                // a TimeoutError, caught and reported
    | Swallowed(message: string)  // any other error, caught and ignored
    | Scraped(fonts: seq<string>)

  /**
   * The project page a landing page names: `urlToScrape`, the href of its
   * first `a.site-link`, when the page loads, that match is an anchor and
   * its href is truthy.
   */
  function ProjectPage(landingPageUrl: string, landingOf: string -> Result<seq<Scrapers.Element>, Fault>): Option<string> {
    if landingOf(landingPageUrl).Failure? then None
    else
      match Scrapers.GrabLink(landingOf(landingPageUrl).value)
      case Success(Some(href)) => if href != "" then Some(href) else None
      case _ => None
  }

  /**
   * The body of the worker's `try`: load the landing page, find its
   * `a.site-link`, and scrape the project it names.
   */
  function Classify(landingPageUrl: string, landingOf: string -> Result<seq<Scrapers.Element>, Fault>,
                    fontsOf: string -> Result<seq<string>, Fault>): (r: TaskOutcome)
    ensures r.Scraped? ==>
      ProjectPage(landingPageUrl, landingOf).Some? && fontsOf(ProjectPage(landingPageUrl, landingOf).value) == Success(r.fonts)
    ensures landingOf(landingPageUrl) == Failure(TimeoutError) ==> r == TimedOut
    ensures landingOf(landingPageUrl).Failure? && landingOf(landingPageUrl).error.Thrown? ==>
      r == Swallowed(landingOf(landingPageUrl).error.message)
    ensures landingOf(landingPageUrl).Success? && Scrapers.GrabLink(landingOf(landingPageUrl).value).Failure? ==>
      r == Swallowed(Scrapers.NotAnAnchor)
    ensures var page := ProjectPage(landingPageUrl, landingOf);
      page.Some? && fontsOf(page.value) == Failure(TimeoutError) ==> r == TimedOut
    ensures var page := ProjectPage(landingPageUrl, landingOf);
      (page.Some? && fontsOf(page.value).Failure? && fontsOf(page.value).error.Thrown?) ==>
        r == Swallowed(fontsOf(page.value).error.message)
    ensures r.Scraped? <==>
      landingOf(landingPageUrl).Success? &&
      var link := Scrapers.GrabLink(landingOf(landingPageUrl).value);
      link.Success? && link.value.Some? && link.value.value != "" && fontsOf(link.value.value).Success?
    ensures r == NoLink <==>
      landingOf(landingPageUrl).Success? &&
      Scrapers.GrabLink(landingOf(landingPageUrl).value) in {Success(None), Success(Some(""))}
  {
    match landingOf(landingPageUrl)
    case Failure(TimeoutError) => TimedOut
    case Failure(Thrown(message)) => Swallowed(message)
    case Success(document) =>
      match Scrapers.GrabLink(document)
      case Failure(message) => Swallowed(message)
      case Success(None) => NoLink
      case Success(Some(urlToScrape)) =>
        if urlToScrape == "" then NoLink
        else
          match fontsOf(urlToScrape)
          case Failure(TimeoutError) => TimedOut
          case Failure(Thrown(message)) => Swallowed(message)
          case Success(fonts) => Scraped(fonts)
  }

  /** The fonts the task hands to the emitting `forEach`: none unless it scraped. */
  function Emitted(outcome: TaskOutcome): seq<string> {
    if outcome.Scraped? then outcome.fonts else []
  }

  /** The fonts the tasks hand over, in task order. */
  function Harvested(tasks: seq<string>, landingOf: string -> Result<seq<Scrapers.Element>, Fault>,
                     fontsOf: string -> Result<seq<string>, Fault>): seq<string>
    decreases |tasks|
  {
    if tasks == [] then []
    else Harvested(tasks[..|tasks| - 1], landingOf, fontsOf) + Emitted(Classify(tasks[|tasks| - 1], landingOf, fontsOf))
  }

  /** Every font a task hands over was scraped from the project page that task's landing page names. */
  lemma {:induction false} HarvestedFromProjects(tasks: seq<string>, landingOf: string -> Result<seq<Scrapers.Element>, Fault>,
                                                fontsOf: string -> Result<seq<string>, Fault>, font: string)
    requires font in Harvested(tasks, landingOf, fontsOf)
    ensures exists t :: (t in tasks && Classify(t, landingOf, fontsOf).Scraped? && font in Classify(t, landingOf, fontsOf).fonts
      && ProjectPage(t, landingOf).Some? && fontsOf(ProjectPage(t, landingOf).value) == Success(Classify(t, landingOf, fontsOf).fonts))
    decreases |tasks|
  {
    var init, last := tasks[..|tasks| - 1], tasks[|tasks| - 1];
    if font in Harvested(init, landingOf, fontsOf) {
      HarvestedFromProjects(init, landingOf, fontsOf, font);
      var t :| t in init && Classify(t, landingOf, fontsOf).Scraped? && font in Classify(t, landingOf, fontsOf).fonts
        && ProjectPage(t, landingOf).Some? && fontsOf(ProjectPage(t, landingOf).value) == Success(Classify(t, landingOf, fontsOf).fonts);
      assert t in tasks;
    } else {
      assert Classify(last, landingOf, fontsOf).Scraped?;
      assert last in tasks;
    }
  }

  /**
   * The response stream of one request: `sentFonts` (the fonts written so
   * far) and the fonts written, in order.
   */
  class FontStream {
    var sent: set<string>
    var written: seq<string>

    /** Each font is written at most once, and `sentFonts` holds exactly the fonts written. */
    ghost predicate Valid()
      reads this
    {
      NoDup(written) && Elems(written) == sent
    }

    constructor()
      ensures Valid() && sent == {} && written == []
    {
      sent := {};
      written := [];
    }

    /** The worker's `fonts.forEach`: write each font not yet sent and record it. */
    method Emit(fonts: seq<string>)
      requires Valid()
      modifies this
      ensures Valid()
      ensures written == AddAll(old(written), fonts)
      ensures sent == old(sent) + Elems(fonts)
    {
      for i := 0 to |fonts|
        invariant Valid()
        invariant written == AddAll(old(written), fonts[..i])
        invariant sent == old(sent) + Elems(fonts[..i])
      {
        assert fonts[..i + 1][..i] == fonts[..i];
        assert Elems(fonts[..i + 1]) == Elems(fonts[..i]) + {fonts[i]};
        if fonts[i] !in sent {
          written := written + [fonts[i]];
          sent := sent + {fonts[i]};
        }
      }
      assert fonts[..|fonts|] == fonts;
    }

    /**
     * One worker invocation. A task without a link, one that timed out and
     * one whose error was swallowed write nothing and leave `sentFonts`
     * unchanged.
     */
    method RunTask(landingPageUrl: string, landingOf: string -> Result<seq<Scrapers.Element>, Fault>,
                   fontsOf: string -> Result<seq<string>, Fault>)
      returns (outcome: TaskOutcome)
      requires Valid()
      modifies this
      ensures Valid()
      ensures outcome == Classify(landingPageUrl, landingOf, fontsOf)
      ensures written == AddAll(old(written), Emitted(outcome))
      ensures sent == old(sent) + Elems(Emitted(outcome))
      ensures !outcome.Scraped? ==> written == old(written) && sent == old(sent)
    {
      outcome := Classify(landingPageUrl, landingOf, fontsOf);
      if outcome.NoLink? || outcome.TimedOut? {
        return;
      }
      var fonts := if outcome.Scraped? then outcome.fonts else [];
      Emit(fonts);
    }

    /** The queue working through its tasks in the order they were pushed. */
    method RunTasks(tasks: seq<string>, landingOf: string -> Result<seq<Scrapers.Element>, Fault>,
                    fontsOf: string -> Result<seq<string>, Fault>)
      requires Valid()
      modifies this
      ensures Valid()
      ensures written == AddAll(old(written), Harvested(tasks, landingOf, fontsOf))
      ensures sent == old(sent) + Elems(Harvested(tasks, landingOf, fontsOf))
    {
      for i := 0 to |tasks|
        invariant Valid()
        invariant written == AddAll(old(written), Harvested(tasks[..i], landingOf, fontsOf))
      {
        assert tasks[..i + 1][..i] == tasks[..i];
        var outcome := RunTask(tasks[i], landingOf, fontsOf);
        AddAllAppend(old(written), Harvested(tasks[..i], landingOf, fontsOf), Emitted(outcome));
      }
      assert tasks[..|tasks|] == tasks;
    }
  }

  // ---------------------------------------------------------------------------
  // `sentFonts` as the source declares it

  /**
   * The properties a plain `{}` inherits from `Object.prototype`; reading
   * any of them from `sentFonts` gives a truthy value.
   */
  const InheritedNames: set<string> :=
    {"constructor", "hasOwnProperty", "isPrototypeOf", "propertyIsEnumerable", "toLocaleString",
     "toString", "valueOf", "__proto__", "__defineGetter__", "__defineSetter__",
     "__lookupGetter__", "__lookupSetter__"}

  /**
   * The emitting `forEach` on the object literal `sentFonts`: a font is
   * skipped when it was sent or when it names an inherited property.
   * Returns the fonts recorded and the fonts written.
   */
  function EmitOnObjectLiteral(sent: set<string>, written: seq<string>, fonts: seq<string>): (r: (set<string>, seq<string>))
    ensures written <= r.1 && sent <= r.0
    decreases |fonts|
  {
    if fonts == [] then (sent, written)
    else
      var prior := EmitOnObjectLiteral(sent, written, fonts[..|fonts| - 1]);
      var font := fonts[|fonts| - 1];
      if font in prior.0 || font in InheritedNames then prior else (prior.0 + {font}, prior.1 + [font])
  }

  /** A scraped font named after an inherited property is never written. */
  lemma {:induction false} InheritedNameNeverWritten(sent: set<string>, written: seq<string>, fonts: seq<string>, font: string)
    requires font in InheritedNames && font !in written
    ensures font !in EmitOnObjectLiteral(sent, written, fonts).1
    decreases |fonts|
  {
    if fonts != [] {
      InheritedNameNeverWritten(sent, written, fonts[..|fonts| - 1], font);
    }
  }

  /**
   * The emission as declared never writes a font twice and records every
   * font it writes.
   */
  lemma {:induction false} ObjectLiteralAtMostOnce(sent: set<string>, written: seq<string>, fonts: seq<string>)
    requires NoDup(written) && Elems(written) <= sent
    ensures var r := EmitOnObjectLiteral(sent, written, fonts);
      NoDup(r.1) && Elems(r.1) <= r.0
    decreases |fonts|
  {
    if fonts != [] {
      var prior := EmitOnObjectLiteral(sent, written, fonts[..|fonts| - 1]);
      ObjectLiteralAtMostOnce(sent, written, fonts[..|fonts| - 1]);
      var font := fonts[|fonts| - 1];
      if !(font in prior.0 || font in InheritedNames) {
        assert font !in Elems(prior.1);
        assert Elems(prior.1 + [font]) == Elems(prior.1) + {font};
      }
    }
  }

  /**
   * Away from inherited property names, the emission as declared is the
   * corrected one: it records the fonts and writes `AddAll` of them.
   */
  lemma {:induction false} ObjectLiteralAgrees(sent: set<string>, written: seq<string>, fonts: seq<string>)
    requires Elems(written) == sent
    requires forall f :: f in fonts ==> f !in InheritedNames
    ensures EmitOnObjectLiteral(sent, written, fonts) == (sent + Elems(fonts), AddAll(written, fonts))
    decreases |fonts|
  {
    if fonts == [] {
      assert Elems(fonts) == {};
    } else {
      var init, font := fonts[..|fonts| - 1], fonts[|fonts| - 1];
      assert fonts == init + [font];
      assert font in fonts;
      forall f | f in init
        ensures f !in InheritedNames
      {
        assert f in fonts;
      }
      ObjectLiteralAgrees(sent, written, init);
      ObjectLiteralStep(sent + Elems(init), AddAll(written, init), sent, written, fonts);
      AddAllSnoc(written, init, font);
      assert Elems(fonts) == Elems(init) + {font};
      assert AddAll(written, fonts) == Add(AddAll(written, init), font);
      assert sent + Elems(fonts) == sent + Elems(init) + {font};
      assert EmitOnObjectLiteral(sent, written, fonts) == (sent + Elems(init) + {font}, Add(AddAll(written, init), font));
    }
  }

  /** One step of the emission, for a font that is no inherited name, from a recorded set that is the written one. */
  lemma ObjectLiteralStep(before: set<string>, out: seq<string>, sent: set<string>, written: seq<string>, fonts: seq<string>)
    requires fonts != [] && fonts[|fonts| - 1] !in InheritedNames
    requires EmitOnObjectLiteral(sent, written, fonts[..|fonts| - 1]) == (before, out) && Elems(out) == before
    ensures EmitOnObjectLiteral(sent, written, fonts) == (before + {fonts[|fonts| - 1]}, Add(out, fonts[|fonts| - 1]))
  {
    var font := fonts[|fonts| - 1];
    if font in out {
      assert before + {font} == before;
    }
  }

  /** A page using a font called `toString`: the stream as declared stays empty, the corrected one writes it. */
  lemma ToStringFont()
    ensures EmitOnObjectLiteral({}, [], ["toString"]).1 == []
    ensures AddAll([], ["toString"]) == ["toString"]
  {
    InheritedNameNeverWritten({}, [], ["toString"], "toString");
    assert ["toString"][..0] == [];
  }

  // ---------------------------------------------------------------------------
  // The handler

  /** The handler's answer: a 400 before any task, or the stream of written fonts. */
  datatype PopularResponse = Rejected(reason: string) | Streamed(tasks: seq<string>, written: seq<string>)

  /**
   * `/parsePopularFonts`: check the concurrency, queue the first
   * `PageLimit` landing pages of the gallery, and run every task.
   */
  method ParsePopularFonts(concurrency: Option<Requests.JsNumber>, catalog: Catalog, ghost horizon: nat,
                           landingOf: string -> Result<seq<Scrapers.Element>, Fault>,
                           fontsOf: string -> Result<seq<string>, Fault>)
    returns (response: PopularResponse)
    requires Requests.PoolSize(concurrency).Success? ==> PageLimit <= |Listed(catalog, horizon)|
    ensures response.Rejected? <==> Requests.PoolSize(concurrency).Failure?
    ensures response.Rejected? ==> response.reason == Requests.BadConcurrency
    ensures response.Streamed? ==>
      response.tasks == Listed(catalog, horizon)[..PageLimit]
    ensures response.Streamed? ==> response.written == Dedup(Harvested(response.tasks, landingOf, fontsOf))
    ensures response.Streamed? ==>
      NoDup(response.written) && Elems(response.written) == Elems(Harvested(response.tasks, landingOf, fontsOf))
  {
    var size := Requests.PoolSize(concurrency);
    if size.Failure? {
      return Rejected(size.error);
    }
    var tasks, galleryPage := Produce(catalog, PageLimit, horizon);
    var stream := new FontStream();
    stream.RunTasks(tasks, landingOf, fontsOf);
    response := Streamed(tasks, stream.written);
  }
}
