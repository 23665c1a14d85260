/**
 * The recursive crawl of `src/helpers/crawlers.js`: a frontier of URLs popped
 * from its end, a map of visited URLs, a visit budget checked by
 * `pageLimitReached`, a deduplicating font set, and the rule that a failure is
 * fatal only while nothing has been visited yet.
 *
 * The browser is replaced by two functions: `fontsOf(url)` stands for
 * `scrapeFonts(browser, url)` and `linksOf(url)` for
 * `scrapeRelativeLinks(page, url)`; a `Failure` is the exception the call
 * throws, carrying its message.
 *
 * The loop is `Crawl`, a method; `Run` states what it computes, one iteration
 * (`Iterate`) at a time, and the lemmas below state what the crawl promises.
 * A ghost trace of the calls made into the document source records what the
 * crawl fetched and in which order.
 */
module Crawlers {
  import opened Wrappers
  import opened Seqs

  /** The `crawlType` argument: `false` (no link expansion), `'breadth-first'` or `'depth-first'`. */
  datatype Policy = Disabled | BreadthFirst | DepthFirst

  /** A call into the document source. */
  datatype Call = ScrapeFonts(url: string) | ScrapeLinks(url: string)

  /** What `crawl` resolves to: `{fonts}` or `{err}`. */
  datatype Outcome = Fonts(fonts: seq<string>) | Err(message: string)

  /**
   * The loop's state: `urlsToScrape`, the keys of `visitedSites`,
   * `fontsToReturn` in insertion order, and the calls made so far.
   */
  datatype Loop = Loop(frontier: seq<string>, visited: set<string>, fonts: seq<string>, calls: seq<Call>)

  /** A finished crawl: its outcome and the loop state it stopped in. */
  datatype Crawled = Crawled(outcome: Outcome, last: Loop)

  /** One turn of the loop either continues with a new state or ends the crawl. */
  datatype Step = Next(state: Loop) | Done(crawled: Crawled)

  /** A document source: the result of one call for a URL, or the message of the error it throws. */
  type Source = string -> Result<seq<string>, string>

  /** The state the loop starts in: `urlsToScrape = [initialUrl]`, nothing visited, no fonts. */
  function Start(initialUrl: string): Loop {
    Loop([initialUrl], {}, [], [])
  }

  // ---------------------------------------------------------------------------
  // The visit budget

  /** `pageLimitReached`: the number of visited URLs is at least `maxRequests`. */
  predicate PageLimitReached(visited: set<string>, maxRequests: real) {
    |visited| as real >= maxRequests
  }

  /**
   * The number of visits at which the budget is reached: the least natural
   * number not below `maxRequests` (so 3 for a budget of 2.5, 0 for a budget of
   * 0 or less).
   */
  function Cap(maxRequests: real): (n: nat)
    ensures n as real >= maxRequests
    ensures n > 0 ==> ((n - 1) as real) < maxRequests
  {
    if maxRequests <= 0.0 then 0 else -((-maxRequests).Floor)
  }

  /** The budget check compares the visit count with `Cap`. */
  lemma LimitAtCap(visited: set<string>, maxRequests: real)
    ensures PageLimitReached(visited, maxRequests) <==> |visited| >= Cap(maxRequests)
  {
    var n, c := |visited|, Cap(maxRequests);
    if n < c {
      assert n as real <= (c - 1) as real;
    }
  }

  /** For a whole, non-negative budget, `Cap` is the budget itself. */
  lemma CapOfWholeBudget(maxRequests: real)
    requires maxRequests >= 0.0 && maxRequests == maxRequests.Floor as real
    ensures Cap(maxRequests) as real == maxRequests
  {
    var k := maxRequests.Floor;
    assert -maxRequests == (-k) as real;
    assert (-maxRequests).Floor == -k;
  }

  // ---------------------------------------------------------------------------
  // Enqueueing the links of a page

  /**
   * One turn of `links.forEach`: an unvisited link, while the limit is not
   * reached, is `unshift`ed for breadth-first and `push`ed otherwise.
   */
  function Admit(frontier: seq<string>, link: string, visited: set<string>, maxRequests: real, policy: Policy): seq<string> {
    if link !in visited && !PageLimitReached(visited, maxRequests) then
      if policy == BreadthFirst then [link] + frontier else frontier + [link]
    else frontier
  }

  /** The frontier after `links.forEach` has run over `links`. */
  function Enqueue(frontier: seq<string>, links: seq<string>, visited: set<string>, maxRequests: real, policy: Policy): seq<string>
    decreases |links|
  {
    if links == [] then frontier
    else Admit(Enqueue(frontier, links[..|links| - 1], visited, maxRequests, policy), links[|links| - 1], visited, maxRequests, policy)
  }

  /** The links that are not yet visited, in order. */
  function Unvisited(links: seq<string>, visited: set<string>): seq<string>
    decreases |links|
  {
    if links == [] then []
    else Unvisited(links[..|links| - 1], visited) + (if links[|links| - 1] in visited then [] else [links[|links| - 1]])
  }

  /** The links a page contributes to the frontier: none once the limit is reached, else the unvisited ones. */
  function Admissible(links: seq<string>, visited: set<string>, maxRequests: real): seq<string> {
    if PageLimitReached(visited, maxRequests) then [] else Unvisited(links, visited)
  }

  /** `s` back to front. */
  function Reversed(s: seq<string>): seq<string>
    decreases |s|
  {
    if s == [] then [] else [s[|s| - 1]] + Reversed(s[..|s| - 1])
  }

  /**
   * Breadth-first: the admissible links go to the front, last link first.
   * Since the loop pops from the end, everything already waiting is visited
   * before them and they come out in the page's order: the frontier is a queue.
   */
  lemma {:induction false} EnqueueBreadthFirst(frontier: seq<string>, links: seq<string>, visited: set<string>, maxRequests: real)
    ensures Enqueue(frontier, links, visited, maxRequests, BreadthFirst)
         == Reversed(Admissible(links, visited, maxRequests)) + frontier
    decreases |links|
  {
    if links != [] {
      var init, link := links[..|links| - 1], links[|links| - 1];
      EnqueueBreadthFirst(frontier, init, visited, maxRequests);
      var before := Enqueue(frontier, init, visited, maxRequests, BreadthFirst);
      assert Enqueue(frontier, links, visited, maxRequests, BreadthFirst)
          == Admit(before, link, visited, maxRequests, BreadthFirst);
      if !PageLimitReached(visited, maxRequests) {
        var u := Unvisited(init, visited);
        assert before == Reversed(u) + frontier;
        if link in visited {
          assert Unvisited(links, visited) == u;
        } else {
          assert Unvisited(links, visited) == u + [link];
          assert (u + [link])[..|u|] == u;
          assert Reversed(u + [link]) == [link] + Reversed(u);
        }
      }
    }
  }

  /**
   * Depth-first: the admissible links go to the end, in the page's order.
   * Since the loop pops from the end, they are visited before everything
   * already waiting and last-to-first: the frontier is a stack.
   */
  lemma {:induction false} EnqueueDepthFirst(frontier: seq<string>, links: seq<string>, visited: set<string>, maxRequests: real, policy: Policy)
    requires policy != BreadthFirst
    ensures Enqueue(frontier, links, visited, maxRequests, policy)
         == frontier + Admissible(links, visited, maxRequests)
    decreases |links|
  {
    if links != [] {
      var init, link := links[..|links| - 1], links[|links| - 1];
      EnqueueDepthFirst(frontier, init, visited, maxRequests, policy);
      var before := Enqueue(frontier, init, visited, maxRequests, policy);
      assert Enqueue(frontier, links, visited, maxRequests, policy) == Admit(before, link, visited, maxRequests, policy);
      if !PageLimitReached(visited, maxRequests) {
        var u := Unvisited(init, visited);
        assert before == frontier + u;
        if link !in visited {
          assert Unvisited(links, visited) == u + [link];
          assert frontier + (u + [link]) == before + [link];
        }
      }
    }
  }

  // ---------------------------------------------------------------------------
  // One iteration and the whole loop

  /** The `catch` block: a failure is fatal while `visitedSites` is empty and swallowed afterwards. */
  function Recover(st: Loop, message: string): (r: Step)
    ensures r.Done? <==> st.visited == {}
    ensures r.Done? ==> r.crawled.outcome == Err(message) && r.crawled.last == st
    ensures r.Next? ==> r.state == st
  {
    if st.visited == {} then Done(Crawled(Err(message), st)) else Next(st)
  }

  /**
   * One turn of the `while` loop: pop the last URL; skip it if it is visited or
   * the limit is reached; scrape its fonts; stop after the first page when
   * `maxRequests === 1` or expansion is disabled; otherwise mark it visited,
   * scrape its links and enqueue the admissible ones.
   */
  function Iterate(st: Loop, maxRequests: real, policy: Policy, fontsOf: Source, linksOf: Source): (r: Step)
    requires st.frontier != [] && |st.visited| <= Cap(maxRequests)
    ensures r.Next? ==> |r.state.visited| <= Cap(maxRequests)
    ensures r.Next? ==>
      |r.state.visited| > |st.visited| || (r.state.visited == st.visited && |r.state.frontier| < |st.frontier|)
  {
    var url := st.frontier[|st.frontier| - 1];
    var rest := st.frontier[..|st.frontier| - 1];
    if url in st.visited || PageLimitReached(st.visited, maxRequests) then
      Next(st.(frontier := rest))
    else
      var fetched := st.calls + [ScrapeFonts(url)];
      match fontsOf(url)
      case Failure(e) => Recover(Loop(rest, st.visited, st.fonts, fetched), e)
      case Success(found) =>
        var fonts := AddAll(st.fonts, found);
        if maxRequests == 1.0 || policy == Disabled then
          Done(Crawled(Fonts(fonts), Loop(rest, st.visited, fonts, fetched)))
        else
          LimitAtCap(st.visited, maxRequests);
          var visited := st.visited + {url};
          var marked := fetched + [ScrapeLinks(url)];
          match linksOf(url)
          case Failure(e) => Recover(Loop(rest, visited, fonts, marked), e)
          case Success(links) => Next(Loop(Enqueue(rest, links, visited, maxRequests, policy), visited, fonts, marked))
  }

  /** The crawl from loop state `st` to its end. */
  function Run(st: Loop, maxRequests: real, policy: Policy, fontsOf: Source, linksOf: Source): (r: Crawled)
    requires |st.visited| <= Cap(maxRequests)
    ensures r.outcome.Fonts? ==> r.outcome.fonts == r.last.fonts
    decreases Cap(maxRequests) - |st.visited|, |st.frontier|
  {
    if st.frontier == [] then Crawled(Fonts(st.fonts), st)
    else
      IterateEnds(st, maxRequests, policy, fontsOf, linksOf);
      match Iterate(st, maxRequests, policy, fontsOf, linksOf)
      case Done(c) => c
      case Next(s) => Run(s, maxRequests, policy, fontsOf, linksOf)
  }

  /**
   * The crawl never unmarks a URL, stops with at most `Cap(maxRequests)` of
   * them marked, and ends in an error only with none marked.
   */
  lemma {:induction false} RunVisits(st: Loop, maxRequests: real, policy: Policy, fontsOf: Source, linksOf: Source)
    requires |st.visited| <= Cap(maxRequests)
    ensures var r := Run(st, maxRequests, policy, fontsOf, linksOf);
      && st.visited <= r.last.visited && |r.last.visited| <= Cap(maxRequests)
      && (r.outcome.Err? ==> r.last.visited == {})
    decreases Cap(maxRequests) - |st.visited|, |st.frontier|
  {
    if st.frontier != [] {
      IterateEnds(st, maxRequests, policy, fontsOf, linksOf);
      match Iterate(st, maxRequests, policy, fontsOf, linksOf)
      case Done(c) =>
      case Next(s) => RunVisits(s, maxRequests, policy, fontsOf, linksOf);
    }
  }

  /**
   * A turn never unmarks a URL. A turn that ends the crawl leaves `visitedSites`
   * as it found it and resolves to the fonts gathered so far, or to an error
   * only while nothing is visited.
   */
  lemma IterateEnds(st: Loop, maxRequests: real, policy: Policy, fontsOf: Source, linksOf: Source)
    requires st.frontier != [] && |st.visited| <= Cap(maxRequests)
    ensures var r := Iterate(st, maxRequests, policy, fontsOf, linksOf);
      && (r.Next? ==> st.visited <= r.state.visited)
      && (r.Done? ==> r.crawled.last.visited == st.visited)
      && (r.Done? && r.crawled.outcome.Fonts? ==> r.crawled.outcome.fonts == r.crawled.last.fonts)
      && (r.Done? && r.crawled.outcome.Err? ==> st.visited == {})
  {
  }

  // ---------------------------------------------------------------------------
  // What the trace of calls says

  /** The URLs marked visited: each mark is followed at once by a call to `scrapeRelativeLinks`. */
  function Marked(calls: seq<Call>): set<string>
    decreases |calls|
  {
    if calls == [] then {}
    else Marked(calls[..|calls| - 1]) + (if calls[|calls| - 1].ScrapeLinks? then {calls[|calls| - 1].url} else {})
  }

  /** The number of link-expansion steps. */
  function LinkCount(calls: seq<Call>): nat
    decreases |calls|
  {
    if calls == [] then 0
    else LinkCount(calls[..|calls| - 1]) + (if calls[|calls| - 1].ScrapeLinks? then 1 else 0)
  }

  /** The fonts of every `scrapeFonts` call in the trace that succeeded. */
  function Gathered(calls: seq<Call>, fontsOf: Source): set<string>
    decreases |calls|
  {
    if calls == [] then {}
    else
      var c := calls[|calls| - 1];
      Gathered(calls[..|calls| - 1], fontsOf) +
        (if c.ScrapeFonts? && fontsOf(c.url).Success? then Elems(fontsOf(c.url).value) else {})
  }

  /** A URL marked visited is never passed to `scrapeFonts` again. */
  predicate NoRefetch(calls: seq<Call>) {
    forall i, j :: 0 <= i < j < |calls| && calls[i].ScrapeLinks? ==> calls[j] != ScrapeFonts(calls[i].url)
  }

  /** Only a URL whose fonts were just scraped successfully is marked visited. */
  predicate MarksFollowFetches(calls: seq<Call>, fontsOf: Source) {
    forall j :: 0 <= j < |calls| && calls[j].ScrapeLinks? ==>
      0 < j && calls[j - 1] == ScrapeFonts(calls[j].url) && fontsOf(calls[j].url).Success?
  }

  /**
   * The gate in front of `scrapeFonts`: a URL is fetched only while it is not
   * marked visited and fewer than `Cap(maxRequests)` URLs are marked, that is
   * while `pageLimitReached` is false.
   */
  predicate FetchesGated(calls: seq<Call>, maxRequests: real)
    decreases |calls|
  {
    calls == [] ||
    var init, c := calls[..|calls| - 1], calls[|calls| - 1];
    && FetchesGated(init, maxRequests)
    && (c.ScrapeFonts? ==> LinkCount(init) < Cap(maxRequests) && c.url !in Marked(init))
  }

  /** The gate, call by call: what held in front of each `scrapeFonts` call of a gated trace. */
  lemma {:induction false} GatedAt(calls: seq<Call>, maxRequests: real)
    requires FetchesGated(calls, maxRequests)
    ensures forall j :: 0 <= j < |calls| && calls[j].ScrapeFonts? ==>
      LinkCount(calls[..j]) < Cap(maxRequests) && calls[j].url !in Marked(calls[..j])
    decreases |calls|
  {
    if calls != [] {
      var init := calls[..|calls| - 1];
      GatedAt(init, maxRequests);
      forall j | 0 <= j < |calls| && calls[j].ScrapeFonts?
        ensures LinkCount(calls[..j]) < Cap(maxRequests) && calls[j].url !in Marked(calls[..j])
      {
        if j < |init| {
          assert calls[j] == init[j] && calls[..j] == init[..j];
        }
      }
    }
  }

  /** What holds of every loop state the crawl reaches. */
  ghost predicate Sound(st: Loop, maxRequests: real, fontsOf: Source) {
    && st.visited == Marked(st.calls)
    && |st.visited| == LinkCount(st.calls) <= Cap(maxRequests)
    && FetchesGated(st.calls, maxRequests)
    && NoDup(st.fonts) && Elems(st.fonts) == Gathered(st.calls, fontsOf)
    && NoRefetch(st.calls)
    && MarksFollowFetches(st.calls, fontsOf)
  }

  /** `Sound`, and while nothing is visited only the seed can be waiting and nothing has been called. */
  ghost predicate Inv(st: Loop, initialUrl: string, maxRequests: real, fontsOf: Source) {
    && Sound(st, maxRequests, fontsOf)
    && (st.visited == {} ==> st.calls == [] && (st.frontier == [initialUrl] || st.frontier == []))
  }

  /** What holds when the crawl ends: an error only ever comes from the seed's own fetch. */
  ghost predicate Final(c: Crawled, initialUrl: string, maxRequests: real, fontsOf: Source) {
    && Sound(c.last, maxRequests, fontsOf)
    && (c.outcome.Fonts? ==> c.outcome.fonts == c.last.fonts)
    && (c.outcome.Err? ==>
          c.last.calls == [ScrapeFonts(initialUrl)] && fontsOf(initialUrl) == Failure(c.outcome.message))
  }

  lemma {:induction false} MarkedHasLinks(calls: seq<Call>)
    ensures forall i :: 0 <= i < |calls| && calls[i].ScrapeLinks? ==> calls[i].url in Marked(calls)
    decreases |calls|
  {
    if calls != [] {
      var init := calls[..|calls| - 1];
      MarkedHasLinks(init);
      forall i | 0 <= i < |calls| - 1 && calls[i].ScrapeLinks?
        ensures calls[i].url in Marked(calls)
      {
        assert calls[i] == init[i];
      }
    }
  }

  /** Appending a call to the trace. */
  lemma AppendCall(calls: seq<Call>, c: Call, fontsOf: Source)
    ensures Marked(calls + [c]) == Marked(calls) + (if c.ScrapeLinks? then {c.url} else {})
    ensures LinkCount(calls + [c]) == LinkCount(calls) + (if c.ScrapeLinks? then 1 else 0)
    ensures Gathered(calls + [c], fontsOf) ==
      Gathered(calls, fontsOf) + (if c.ScrapeFonts? && fontsOf(c.url).Success? then Elems(fontsOf(c.url).value) else {})
  {
    assert (calls + [c])[..|calls|] == calls;
  }

  /** Appending a call keeps the gate when a fetch is appended only while it is open. */
  lemma GateKeeps(calls: seq<Call>, c: Call, maxRequests: real)
    requires FetchesGated(calls, maxRequests)
    requires c.ScrapeFonts? ==> LinkCount(calls) < Cap(maxRequests) && c.url !in Marked(calls)
    ensures FetchesGated(calls + [c], maxRequests)
  {
    assert (calls + [c])[..|calls|] == calls;
  }

  /** A fetch of an unvisited URL, while the limit is not reached, keeps the state sound. */
  lemma FetchKeeps(st: Loop, url: string, maxRequests: real, fontsOf: Source)
    requires Sound(st, maxRequests, fontsOf) && url !in st.visited
    requires !PageLimitReached(st.visited, maxRequests)
    ensures var calls := st.calls + [ScrapeFonts(url)];
      && Marked(calls) == st.visited && LinkCount(calls) == |st.visited|
      && FetchesGated(calls, maxRequests)
      && NoRefetch(calls) && MarksFollowFetches(calls, fontsOf)
      && Gathered(calls, fontsOf) ==
           Gathered(st.calls, fontsOf) + (if fontsOf(url).Success? then Elems(fontsOf(url).value) else {})
  {
    var calls := st.calls + [ScrapeFonts(url)];
    AppendCall(st.calls, ScrapeFonts(url), fontsOf);
    LimitAtCap(st.visited, maxRequests);
    GateKeeps(st.calls, ScrapeFonts(url), maxRequests);
    MarkedHasLinks(st.calls);
    forall i, j | 0 <= i < j < |calls| && calls[i].ScrapeLinks?
      ensures calls[j] != ScrapeFonts(calls[i].url)
    {
      if j == |st.calls| {
        assert calls[i] == st.calls[i];
      } else {
        assert calls[i] == st.calls[i] && calls[j] == st.calls[j];
      }
    }
    forall j | 0 <= j < |calls| && calls[j].ScrapeLinks?
      ensures 0 < j && calls[j - 1] == ScrapeFonts(calls[j].url) && fontsOf(calls[j].url).Success?
    {
      assert calls[j] == st.calls[j] && calls[j - 1] == st.calls[j - 1];
    }
  }

  /** Marking a URL whose fonts were just scraped keeps the trace sound. */
  lemma MarkKeeps(calls: seq<Call>, url: string, fontsOf: Source)
    requires |calls| > 0 && calls[|calls| - 1] == ScrapeFonts(url) && fontsOf(url).Success?
    requires NoRefetch(calls) && MarksFollowFetches(calls, fontsOf)
    ensures var marked := calls + [ScrapeLinks(url)];
      && NoRefetch(marked) && MarksFollowFetches(marked, fontsOf)
      && Marked(marked) == Marked(calls) + {url} && LinkCount(marked) == LinkCount(calls) + 1
      && Gathered(marked, fontsOf) == Gathered(calls, fontsOf)
  {
    var marked := calls + [ScrapeLinks(url)];
    AppendCall(calls, ScrapeLinks(url), fontsOf);
    forall i, j | 0 <= i < j < |marked| && marked[i].ScrapeLinks?
      ensures marked[j] != ScrapeFonts(marked[i].url)
    {
      assert marked[i] == calls[i];
      if j < |calls| { assert marked[j] == calls[j]; }
    }
    forall j | 0 <= j < |marked| && marked[j].ScrapeLinks?
      ensures 0 < j && marked[j - 1] == ScrapeFonts(marked[j].url) && fontsOf(marked[j].url).Success?
    {
      if j < |calls| { assert marked[j] == calls[j] && marked[j - 1] == calls[j - 1]; }
    }
  }

  /** A step keeps `Inv` when it continues and leaves `Final` when it ends the crawl. */
  ghost predicate StepOk(r: Step, initialUrl: string, maxRequests: real, fontsOf: Source) {
    match r
    case Next(s) => Inv(s, initialUrl, maxRequests, fontsOf)
    case Done(c) => Final(c, initialUrl, maxRequests, fontsOf)
  }

  /** The `catch` block after a fetch keeps the crawl sound. */
  lemma RecoverKeeps(st: Loop, e: string, initialUrl: string, maxRequests: real, fontsOf: Source)
    requires Sound(st, maxRequests, fontsOf)
    requires st.visited == {} ==> st.calls == [ScrapeFonts(initialUrl)] && fontsOf(initialUrl) == Failure(e)
    ensures StepOk(Recover(st, e), initialUrl, maxRequests, fontsOf)
  {
  }

  /** The state after a successful fetch of an unvisited URL is sound. */
  lemma FetchedSound(st: Loop, url: string, rest: seq<string>, maxRequests: real, fontsOf: Source)
    requires Sound(st, maxRequests, fontsOf) && url !in st.visited && fontsOf(url).Success?
    requires !PageLimitReached(st.visited, maxRequests)
    ensures Sound(Loop(rest, st.visited, AddAll(st.fonts, fontsOf(url).value), st.calls + [ScrapeFonts(url)]), maxRequests, fontsOf)
  {
    FetchKeeps(st, url, maxRequests, fontsOf);
  }

  /** The state after marking a freshly fetched URL visited is sound. */
  lemma MarkedSound(st: Loop, url: string, frontier: seq<string>, maxRequests: real, fontsOf: Source)
    requires Sound(st, maxRequests, fontsOf) && url !in st.visited && fontsOf(url).Success?
    requires !PageLimitReached(st.visited, maxRequests)
    ensures Sound(Loop(frontier, st.visited + {url}, AddAll(st.fonts, fontsOf(url).value),
                       st.calls + [ScrapeFonts(url)] + [ScrapeLinks(url)]), maxRequests, fontsOf)
  {
    FetchKeeps(st, url, maxRequests, fontsOf);
    LimitAtCap(st.visited, maxRequests);
    MarkKeeps(st.calls + [ScrapeFonts(url)], url, fontsOf);
    GateKeeps(st.calls + [ScrapeFonts(url)], ScrapeLinks(url), maxRequests);
  }

  /** A fetch whose fonts were scraped keeps the crawl sound, whether it stops or expands. */
  lemma ScrapedKeeps(st: Loop, initialUrl: string, maxRequests: real, policy: Policy, fontsOf: Source, linksOf: Source)
    requires st.frontier != [] && Inv(st, initialUrl, maxRequests, fontsOf)
    requires var url := st.frontier[|st.frontier| - 1];
      url !in st.visited && !PageLimitReached(st.visited, maxRequests) && fontsOf(url).Success?
    ensures StepOk(Iterate(st, maxRequests, policy, fontsOf, linksOf), initialUrl, maxRequests, fontsOf)
  {
    var url := st.frontier[|st.frontier| - 1];
    var rest := st.frontier[..|st.frontier| - 1];
    var fetched := st.calls + [ScrapeFonts(url)];
    var fonts := AddAll(st.fonts, fontsOf(url).value);
    if maxRequests == 1.0 || policy == Disabled {
      FetchedSound(st, url, rest, maxRequests, fontsOf);
    } else {
      var visited := st.visited + {url};
      var marked := fetched + [ScrapeLinks(url)];
      var next := if linksOf(url).Success? then Enqueue(rest, linksOf(url).value, visited, maxRequests, policy) else rest;
      MarkedSound(st, url, next, maxRequests, fontsOf);
      assert Iterate(st, maxRequests, policy, fontsOf, linksOf) == Next(Loop(next, visited, fonts, marked));
    }
  }

  /** A fetch that throws keeps the crawl sound, whether the error is fatal or swallowed. */
  lemma FailedFetchKeeps(st: Loop, initialUrl: string, maxRequests: real, policy: Policy, fontsOf: Source, linksOf: Source)
    requires st.frontier != [] && Inv(st, initialUrl, maxRequests, fontsOf)
    requires var url := st.frontier[|st.frontier| - 1];
      url !in st.visited && !PageLimitReached(st.visited, maxRequests) && fontsOf(url).Failure?
    ensures StepOk(Iterate(st, maxRequests, policy, fontsOf, linksOf), initialUrl, maxRequests, fontsOf)
  {
    var url := st.frontier[|st.frontier| - 1];
    var failed := Loop(st.frontier[..|st.frontier| - 1], st.visited, st.fonts, st.calls + [ScrapeFonts(url)]);
    FetchKeeps(st, url, maxRequests, fontsOf);
    assert Iterate(st, maxRequests, policy, fontsOf, linksOf) == Recover(failed, fontsOf(url).error);
    RecoverKeeps(failed, fontsOf(url).error, initialUrl, maxRequests, fontsOf);
  }

  /** One iteration keeps `Inv`, and a crawl that ends in it ends `Final`. */
  lemma IterateKeeps(st: Loop, initialUrl: string, maxRequests: real, policy: Policy, fontsOf: Source, linksOf: Source)
    requires st.frontier != [] && Inv(st, initialUrl, maxRequests, fontsOf)
    ensures StepOk(Iterate(st, maxRequests, policy, fontsOf, linksOf), initialUrl, maxRequests, fontsOf)
  {
    var url := st.frontier[|st.frontier| - 1];
    var rest := st.frontier[..|st.frontier| - 1];
    if url in st.visited || PageLimitReached(st.visited, maxRequests) {
      assert st.visited == {} ==> rest == [];
    } else if fontsOf(url).Failure? {
      FailedFetchKeeps(st, initialUrl, maxRequests, policy, fontsOf, linksOf);
    } else {
      ScrapedKeeps(st, initialUrl, maxRequests, policy, fontsOf, linksOf);
    }
  }

  /** The whole loop keeps `Inv` and ends `Final`. */
  lemma {:induction false} RunKeeps(st: Loop, initialUrl: string, maxRequests: real, policy: Policy, fontsOf: Source, linksOf: Source)
    requires Inv(st, initialUrl, maxRequests, fontsOf)
    ensures Final(Run(st, maxRequests, policy, fontsOf, linksOf), initialUrl, maxRequests, fontsOf)
    decreases Cap(maxRequests) - |st.visited|, |st.frontier|
  {
    if st.frontier != [] {
      IterateKeeps(st, initialUrl, maxRequests, policy, fontsOf, linksOf);
      match Iterate(st, maxRequests, policy, fontsOf, linksOf)
      case Done(c) =>
      case Next(s) => RunKeeps(s, initialUrl, maxRequests, policy, fontsOf, linksOf);
    }
  }

  // ---------------------------------------------------------------------------
  // What the crawl promises

  /** Everything `Final` says, for the crawl from the seed. */
  lemma {:induction false} CrawlIsSound(initialUrl: string, maxRequests: real, policy: Policy, fontsOf: Source, linksOf: Source)
    ensures Final(Run(Start(initialUrl), maxRequests, policy, fontsOf, linksOf), initialUrl, maxRequests, fontsOf)
  {
    RunKeeps(Start(initialUrl), initialUrl, maxRequests, policy, fontsOf, linksOf);
  }

  /**
   * The visit budget: at most `Cap(maxRequests)` URLs are ever marked visited,
   * each by exactly one link-expansion step, so there are at most that many
   * calls to `scrapeRelativeLinks`; and every `scrapeFonts` call is made while
   * its URL is unmarked and fewer than `Cap(maxRequests)` URLs are marked.
   * (A failed fetch marks nothing, so the number of fetches itself is not
   * bounded by the cap.)
   */
  lemma VisitBudget(initialUrl: string, maxRequests: real, policy: Policy, fontsOf: Source, linksOf: Source)
    ensures var r := Run(Start(initialUrl), maxRequests, policy, fontsOf, linksOf);
      && r.last.visited == Marked(r.last.calls)
      && |r.last.visited| == LinkCount(r.last.calls) <= Cap(maxRequests)
      && forall j :: 0 <= j < |r.last.calls| && r.last.calls[j].ScrapeFonts? ==>
           LinkCount(r.last.calls[..j]) < Cap(maxRequests) && r.last.calls[j].url !in Marked(r.last.calls[..j])
  {
    CrawlIsSound(initialUrl, maxRequests, policy, fontsOf, linksOf);
    GatedAt(Run(Start(initialUrl), maxRequests, policy, fontsOf, linksOf).last.calls, maxRequests);
  }

  /**
   * A visited URL is never fetched again, and a URL is marked visited only
   * right after a successful fetch of its fonts.
   */
  lemma NeverRefetched(initialUrl: string, maxRequests: real, policy: Policy, fontsOf: Source, linksOf: Source)
    ensures var r := Run(Start(initialUrl), maxRequests, policy, fontsOf, linksOf);
      NoRefetch(r.last.calls) && MarksFollowFetches(r.last.calls, fontsOf)
  {
    CrawlIsSound(initialUrl, maxRequests, policy, fontsOf, linksOf);
  }

  /** The fonts returned have no duplicates and are the union of every successful `scrapeFonts` call. */
  lemma FontsAreUnion(initialUrl: string, maxRequests: real, policy: Policy, fontsOf: Source, linksOf: Source)
    ensures var r := Run(Start(initialUrl), maxRequests, policy, fontsOf, linksOf);
      r.outcome.Fonts? ==>
        NoDup(r.outcome.fonts) && Elems(r.outcome.fonts) == Gathered(r.last.calls, fontsOf)
  {
    CrawlIsSound(initialUrl, maxRequests, policy, fontsOf, linksOf);
  }

  /**
   * Failure is reported only when the seed's own fetch fails: the crawl then
   * made that single call and returns its error. Once the seed's fonts were
   * scraped, every later failure is swallowed.
   */
  lemma OnlySeedFailureIsFatal(initialUrl: string, maxRequests: real, policy: Policy, fontsOf: Source, linksOf: Source)
    ensures var r := Run(Start(initialUrl), maxRequests, policy, fontsOf, linksOf);
      && (r.outcome.Err? ==>
            r.last.calls == [ScrapeFonts(initialUrl)] && fontsOf(initialUrl) == Failure(r.outcome.message))
      && (fontsOf(initialUrl).Success? ==> r.outcome.Fonts?)
  {
    CrawlIsSound(initialUrl, maxRequests, policy, fontsOf, linksOf);
  }

  /** A failing seed (with a positive budget) is fatal: `{err}`, and no link is ever scraped. */
  lemma SeedFailure(initialUrl: string, maxRequests: real, policy: Policy, fontsOf: Source, linksOf: Source)
    requires maxRequests > 0.0 && fontsOf(initialUrl).Failure?
    ensures var r := Run(Start(initialUrl), maxRequests, policy, fontsOf, linksOf);
      r.outcome == Err(fontsOf(initialUrl).error) && r.last.calls == [ScrapeFonts(initialUrl)]
  {
    LimitAtCap({}, maxRequests);
  }

  /**
   * The single-page short cut: with `maxRequests === 1`, or expansion disabled
   * and a positive budget, only the seed is fetched, `scrapeRelativeLinks` is
   * never called, nothing is marked visited, and the result is the seed's fonts.
   */
  lemma SinglePage(initialUrl: string, maxRequests: real, policy: Policy, fontsOf: Source, linksOf: Source)
    requires maxRequests == 1.0 || (policy == Disabled && maxRequests > 0.0)
    ensures var r := Run(Start(initialUrl), maxRequests, policy, fontsOf, linksOf);
      && r.last.calls == [ScrapeFonts(initialUrl)]
      && r.last.visited == {}
      && r.outcome == match fontsOf(initialUrl)
                      case Success(found) => Fonts(Dedup(found))
                      case Failure(e) => Err(e)
  {
    LimitAtCap({}, maxRequests);
  }

  /** The URLs passed to `scrapeFonts`, in order. */
  function Visits(calls: seq<Call>): seq<string>
    decreases |calls|
  {
    if calls == [] then []
    else (if calls[0].ScrapeFonts? then [calls[0].url] else []) + Visits(calls[1..])
  }

  /**
   * The site of the examples below: the seed `home` links to `a` and `b`, `a`
   * links to `c`; the four URLs are distinct and no page has fonts.
   */
  predicate ExampleSite(home: string, a: string, b: string, c: string, fontsOf: Source, linksOf: Source) {
    home != a && home != b && home != c && a != b && a != c && b != c &&
    linksOf(home) == Success([a, b]) && linksOf(a) == Success([c]) && linksOf(b) == Success([]) && linksOf(c) == Success([]) &&
    fontsOf(home) == Success([]) && fontsOf(a) == Success([]) && fontsOf(b) == Success([]) && fontsOf(c) == Success([])
  }

  /**
   * A turn that fetches and expands an unvisited URL inside the budget hands
   * the rest of the crawl to the expanded state `next`.
   */
  lemma Expand(st: Loop, next: Loop, maxRequests: real, policy: Policy, fontsOf: Source, linksOf: Source)
    requires st.frontier != [] && |st.visited| as real < maxRequests && maxRequests != 1.0 && policy != Disabled
    requires st.frontier[|st.frontier| - 1] !in st.visited
    requires fontsOf(st.frontier[|st.frontier| - 1]).Success? && linksOf(st.frontier[|st.frontier| - 1]).Success?
    requires var url := st.frontier[|st.frontier| - 1];
      var visited := st.visited + {url};
      next == Loop(Enqueue(st.frontier[..|st.frontier| - 1], linksOf(url).value, visited, maxRequests, policy), visited,
                   AddAll(st.fonts, fontsOf(url).value), st.calls + [ScrapeFonts(url), ScrapeLinks(url)])
    ensures |st.visited| <= Cap(maxRequests) && |next.visited| <= Cap(maxRequests)
    ensures Run(st, maxRequests, policy, fontsOf, linksOf) == Run(next, maxRequests, policy, fontsOf, linksOf)
  {
    var url := st.frontier[|st.frontier| - 1];
    LimitAtCap(st.visited, maxRequests);
    assert st.calls + [ScrapeFonts(url)] + [ScrapeLinks(url)] == st.calls + [ScrapeFonts(url), ScrapeLinks(url)];
    assert Iterate(st, maxRequests, policy, fontsOf, linksOf) == Next(next);
  }

  /** `links.forEach` over one or two links. */
  lemma EnqueuePair(frontier: seq<string>, x: string, y: string, visited: set<string>, maxRequests: real, policy: Policy)
    ensures Enqueue(frontier, [x], visited, maxRequests, policy) == Admit(frontier, x, visited, maxRequests, policy)
    ensures Enqueue(frontier, [x, y], visited, maxRequests, policy)
         == Admit(Admit(frontier, x, visited, maxRequests, policy), y, visited, maxRequests, policy)
  {
    assert [x][..0] == [];
    assert [x, y][..1] == [x];
  }

  /** Up to three visited URLs stay below a budget of four, whatever they are. */
  lemma AtMostThree(a: string, b: string, c: string)
    ensures |{a}| == 1 && |{a, b}| <= 2 && |{a, b, c}| <= 3
  {
  }

  /** The calls a breadth-first crawl of the example site makes. */
  lemma BreadthFirstCalls(home: string, a: string, b: string, c: string, maxRequests: real, fontsOf: Source, linksOf: Source)
    requires maxRequests >= 4.0 && ExampleSite(home, a, b, c, fontsOf, linksOf)
    ensures Run(Start(home), maxRequests, BreadthFirst, fontsOf, linksOf).last.calls == [ScrapeFonts(home), ScrapeLinks(home), ScrapeFonts(a), ScrapeLinks(a), ScrapeFonts(b), ScrapeLinks(b), ScrapeFonts(c), ScrapeLinks(c)]
  {
    AtMostThree(home, a, b);
    EnqueuePair([], a, b, {home}, maxRequests, BreadthFirst);
    assert Enqueue([], [a, b], {home}, maxRequests, BreadthFirst) == [b, a];
    assert {} + {home} == {home};
    Expand(Start(home), Loop([b, a], {home}, [], [ScrapeFonts(home), ScrapeLinks(home)]), maxRequests, BreadthFirst, fontsOf, linksOf);
    BreadthFirstSecondTurn(home, a, b, c, maxRequests, fontsOf, linksOf);
  }

  /** The breadth-first crawl of the example site from its second turn on. */
  lemma BreadthFirstSecondTurn(home: string, a: string, b: string, c: string, maxRequests: real, fontsOf: Source, linksOf: Source)
    requires maxRequests >= 4.0 && ExampleSite(home, a, b, c, fontsOf, linksOf)
    ensures Run(Loop([b, a], {home}, [], [ScrapeFonts(home), ScrapeLinks(home)]), maxRequests, BreadthFirst, fontsOf, linksOf).last
         == Loop([], {home, a, b, c}, [], [ScrapeFonts(home), ScrapeLinks(home), ScrapeFonts(a), ScrapeLinks(a), ScrapeFonts(b), ScrapeLinks(b), ScrapeFonts(c), ScrapeLinks(c)])
  {
    AtMostThree(home, a, b);
    EnqueuePair([b], c, c, {home, a}, maxRequests, BreadthFirst);
    assert Enqueue([b], [c], {home, a}, maxRequests, BreadthFirst) == [c, b];
    assert {home} + {a} == {home, a};
    Expand(Loop([b, a], {home}, [], [ScrapeFonts(home), ScrapeLinks(home)]), Loop([c, b], {home, a}, [], [ScrapeFonts(home), ScrapeLinks(home), ScrapeFonts(a), ScrapeLinks(a)]), maxRequests, BreadthFirst, fontsOf, linksOf);
    BreadthFirstThirdTurn(home, a, b, c, maxRequests, fontsOf, linksOf);
  }

  /** The breadth-first crawl of the example site from its third turn on. */
  lemma BreadthFirstThirdTurn(home: string, a: string, b: string, c: string, maxRequests: real, fontsOf: Source, linksOf: Source)
    requires maxRequests >= 4.0 && ExampleSite(home, a, b, c, fontsOf, linksOf)
    ensures Run(Loop([c, b], {home, a}, [], [ScrapeFonts(home), ScrapeLinks(home), ScrapeFonts(a), ScrapeLinks(a)]), maxRequests, BreadthFirst, fontsOf, linksOf).last
         == Loop([], {home, a, b, c}, [], [ScrapeFonts(home), ScrapeLinks(home), ScrapeFonts(a), ScrapeLinks(a), ScrapeFonts(b), ScrapeLinks(b), ScrapeFonts(c), ScrapeLinks(c)])
  {
    AtMostThree(home, a, b);
    assert {home, a} + {b} == {home, a, b};
    Expand(Loop([c, b], {home, a}, [], [ScrapeFonts(home), ScrapeLinks(home), ScrapeFonts(a), ScrapeLinks(a)]), Loop([c], {home, a, b}, [], [ScrapeFonts(home), ScrapeLinks(home), ScrapeFonts(a), ScrapeLinks(a), ScrapeFonts(b), ScrapeLinks(b)]), maxRequests, BreadthFirst, fontsOf, linksOf);
    BreadthFirstLastTurn(home, a, b, c, maxRequests, fontsOf, linksOf);
  }

  /** The breadth-first crawl of the example site from its last turn on. */
  lemma BreadthFirstLastTurn(home: string, a: string, b: string, c: string, maxRequests: real, fontsOf: Source, linksOf: Source)
    requires maxRequests >= 4.0 && ExampleSite(home, a, b, c, fontsOf, linksOf)
    ensures Run(Loop([c], {home, a, b}, [], [ScrapeFonts(home), ScrapeLinks(home), ScrapeFonts(a), ScrapeLinks(a), ScrapeFonts(b), ScrapeLinks(b)]), maxRequests, BreadthFirst, fontsOf, linksOf).last
         == Loop([], {home, a, b, c}, [], [ScrapeFonts(home), ScrapeLinks(home), ScrapeFonts(a), ScrapeLinks(a), ScrapeFonts(b), ScrapeLinks(b), ScrapeFonts(c), ScrapeLinks(c)])
  {
    AtMostThree(home, a, b);
    assert {home, a, b} + {c} == {home, a, b, c};
    Expand(Loop([c], {home, a, b}, [], [ScrapeFonts(home), ScrapeLinks(home), ScrapeFonts(a), ScrapeLinks(a), ScrapeFonts(b), ScrapeLinks(b)]), Loop([], {home, a, b, c}, [], [ScrapeFonts(home), ScrapeLinks(home), ScrapeFonts(a), ScrapeLinks(a), ScrapeFonts(b), ScrapeLinks(b), ScrapeFonts(c), ScrapeLinks(c)]), maxRequests, BreadthFirst, fontsOf, linksOf);
  }

  /** The calls a depth-first crawl of the example site makes. */
  lemma DepthFirstCalls(home: string, a: string, b: string, c: string, maxRequests: real, fontsOf: Source, linksOf: Source)
    requires maxRequests >= 4.0 && ExampleSite(home, a, b, c, fontsOf, linksOf)
    ensures Run(Start(home), maxRequests, DepthFirst, fontsOf, linksOf).last.calls == [ScrapeFonts(home), ScrapeLinks(home), ScrapeFonts(b), ScrapeLinks(b), ScrapeFonts(a), ScrapeLinks(a), ScrapeFonts(c), ScrapeLinks(c)]
  {
    AtMostThree(home, a, b);
    EnqueuePair([], a, b, {home}, maxRequests, DepthFirst);
    assert Enqueue([], [a, b], {home}, maxRequests, DepthFirst) == [a, b];
    assert {} + {home} == {home};
    Expand(Start(home), Loop([a, b], {home}, [], [ScrapeFonts(home), ScrapeLinks(home)]), maxRequests, DepthFirst, fontsOf, linksOf);
    DepthFirstSecondTurn(home, a, b, c, maxRequests, fontsOf, linksOf);
  }

  /** The depth-first crawl of the example site from its second turn on. */
  lemma DepthFirstSecondTurn(home: string, a: string, b: string, c: string, maxRequests: real, fontsOf: Source, linksOf: Source)
    requires maxRequests >= 4.0 && ExampleSite(home, a, b, c, fontsOf, linksOf)
    ensures Run(Loop([a, b], {home}, [], [ScrapeFonts(home), ScrapeLinks(home)]), maxRequests, DepthFirst, fontsOf, linksOf).last
         == Loop([], {home, b, a, c}, [], [ScrapeFonts(home), ScrapeLinks(home), ScrapeFonts(b), ScrapeLinks(b), ScrapeFonts(a), ScrapeLinks(a), ScrapeFonts(c), ScrapeLinks(c)])
  {
    AtMostThree(home, b, a);
    assert {home} + {b} == {home, b};
    Expand(Loop([a, b], {home}, [], [ScrapeFonts(home), ScrapeLinks(home)]), Loop([a], {home, b}, [], [ScrapeFonts(home), ScrapeLinks(home), ScrapeFonts(b), ScrapeLinks(b)]), maxRequests, DepthFirst, fontsOf, linksOf);
    DepthFirstThirdTurn(home, a, b, c, maxRequests, fontsOf, linksOf);
  }

  /** The depth-first crawl of the example site from its third turn on. */
  lemma DepthFirstThirdTurn(home: string, a: string, b: string, c: string, maxRequests: real, fontsOf: Source, linksOf: Source)
    requires maxRequests >= 4.0 && ExampleSite(home, a, b, c, fontsOf, linksOf)
    ensures Run(Loop([a], {home, b}, [], [ScrapeFonts(home), ScrapeLinks(home), ScrapeFonts(b), ScrapeLinks(b)]), maxRequests, DepthFirst, fontsOf, linksOf).last
         == Loop([], {home, b, a, c}, [], [ScrapeFonts(home), ScrapeLinks(home), ScrapeFonts(b), ScrapeLinks(b), ScrapeFonts(a), ScrapeLinks(a), ScrapeFonts(c), ScrapeLinks(c)])
  {
    AtMostThree(home, b, a);
    EnqueuePair([], c, c, {home, b, a}, maxRequests, DepthFirst);
    assert Enqueue([], [c], {home, b, a}, maxRequests, DepthFirst) == [c];
    assert {home, b} + {a} == {home, b, a};
    Expand(Loop([a], {home, b}, [], [ScrapeFonts(home), ScrapeLinks(home), ScrapeFonts(b), ScrapeLinks(b)]), Loop([c], {home, b, a}, [], [ScrapeFonts(home), ScrapeLinks(home), ScrapeFonts(b), ScrapeLinks(b), ScrapeFonts(a), ScrapeLinks(a)]), maxRequests, DepthFirst, fontsOf, linksOf);
    DepthFirstLastTurn(home, a, b, c, maxRequests, fontsOf, linksOf);
  }

  /** The depth-first crawl of the example site from its last turn on. */
  lemma DepthFirstLastTurn(home: string, a: string, b: string, c: string, maxRequests: real, fontsOf: Source, linksOf: Source)
    requires maxRequests >= 4.0 && ExampleSite(home, a, b, c, fontsOf, linksOf)
    ensures Run(Loop([c], {home, b, a}, [], [ScrapeFonts(home), ScrapeLinks(home), ScrapeFonts(b), ScrapeLinks(b), ScrapeFonts(a), ScrapeLinks(a)]), maxRequests, DepthFirst, fontsOf, linksOf).last
         == Loop([], {home, b, a, c}, [], [ScrapeFonts(home), ScrapeLinks(home), ScrapeFonts(b), ScrapeLinks(b), ScrapeFonts(a), ScrapeLinks(a), ScrapeFonts(c), ScrapeLinks(c)])
  {
    AtMostThree(home, b, a);
    assert {home, b, a} + {c} == {home, b, a, c};
    Expand(Loop([c], {home, b, a}, [], [ScrapeFonts(home), ScrapeLinks(home), ScrapeFonts(b), ScrapeLinks(b), ScrapeFonts(a), ScrapeLinks(a)]), Loop([], {home, b, a, c}, [], [ScrapeFonts(home), ScrapeLinks(home), ScrapeFonts(b), ScrapeLinks(b), ScrapeFonts(a), ScrapeLinks(a), ScrapeFonts(c), ScrapeLinks(c)]), maxRequests, DepthFirst, fontsOf, linksOf);
  }

  /**
   * Visit order on the example site: breadth-first visits `a` and `b` before
   * `c`; depth-first takes a page's links last-to-first, so it visits `b`,
   * then `a`, then `c`.
   */
  lemma VisitOrders(home: string, a: string, b: string, c: string, maxRequests: real, fontsOf: Source, linksOf: Source)
    requires maxRequests >= 4.0 && ExampleSite(home, a, b, c, fontsOf, linksOf)
    ensures Visits(Run(Start(home), maxRequests, BreadthFirst, fontsOf, linksOf).last.calls) == [home, a, b, c]
    ensures Visits(Run(Start(home), maxRequests, DepthFirst, fontsOf, linksOf).last.calls) == [home, b, a, c]
  {
    BreadthFirstCalls(home, a, b, c, maxRequests, fontsOf, linksOf);
    DepthFirstCalls(home, a, b, c, maxRequests, fontsOf, linksOf);
    PagesOfFour(home, a, b, c);
    PagesOfFour(home, b, a, c);
  }

  lemma PagesOfFour(a: string, b: string, c: string, d: string)
    ensures Visits([ScrapeFonts(a), ScrapeLinks(a), ScrapeFonts(b), ScrapeLinks(b),
                    ScrapeFonts(c), ScrapeLinks(c), ScrapeFonts(d), ScrapeLinks(d)]) == [a, b, c, d]
  {
    var urls := [a, b, c, d];
    assert urls[1..][1..][1..][1..] == [];
    assert Pages(urls[1..][1..][1..]) == [ScrapeFonts(d), ScrapeLinks(d)];
    assert Pages(urls[1..][1..]) == [ScrapeFonts(c), ScrapeLinks(c), ScrapeFonts(d), ScrapeLinks(d)];
    assert Pages(urls) == [ScrapeFonts(a), ScrapeLinks(a), ScrapeFonts(b), ScrapeLinks(b),
                           ScrapeFonts(c), ScrapeLinks(c), ScrapeFonts(d), ScrapeLinks(d)];
    VisitsOfPages(urls);
  }

  /** The trace of a crawl that fetches and marks each page in turn. */
  function Pages(urls: seq<string>): seq<Call>
  {
    if urls == [] then [] else [ScrapeFonts(urls[0]), ScrapeLinks(urls[0])] + Pages(urls[1..])
  }

  /** The visit order read off such a trace is the page order. */
  lemma {:induction false} VisitsOfPages(urls: seq<string>)
    ensures Visits(Pages(urls)) == urls
  {
    if urls != [] {
      var rest := Pages(urls[1..]);
      VisitsOfPages(urls[1..]);
      assert ([ScrapeFonts(urls[0]), ScrapeLinks(urls[0])] + rest)[1..] == [ScrapeLinks(urls[0])] + rest;
      assert ([ScrapeLinks(urls[0])] + rest)[1..] == rest;
    }
  }

  // ---------------------------------------------------------------------------
  // The loop itself

  /** `links.forEach(...)`: `unshift` or `push` every unvisited link while the limit is not reached. */
  method EnqueueLinks(urlsToScrape: seq<string>, links: seq<string>, visited: set<string>, maxRequests: real, policy: Policy)
    returns (frontier: seq<string>)
    ensures frontier == Enqueue(urlsToScrape, links, visited, maxRequests, policy)
  {
    frontier := urlsToScrape;
    for i := 0 to |links|
      invariant frontier == Enqueue(urlsToScrape, links[..i], visited, maxRequests, policy)
    {
      assert links[..i + 1][..i] == links[..i];
      var link := links[i];
      if link !in visited && !PageLimitReached(visited, maxRequests) {
        if policy == BreadthFirst {
          frontier := [link] + frontier;
        } else {
          frontier := frontier + [link];
        }
      }
    }
    assert links[..|links|] == links;
  }

  // ---------------------------------------------------------------------------
  // How the rest of the crawl follows each branch of one turn

  /** A visited URL, or one popped once the limit is reached, is skipped. */
  lemma SkipTurn(st: Loop, maxRequests: real, policy: Policy, fontsOf: Source, linksOf: Source)
    requires st.frontier != [] && |st.visited| <= Cap(maxRequests)
    requires st.frontier[|st.frontier| - 1] in st.visited || PageLimitReached(st.visited, maxRequests)
    ensures Run(st, maxRequests, policy, fontsOf, linksOf)
         == Run(st.(frontier := st.frontier[..|st.frontier| - 1]), maxRequests, policy, fontsOf, linksOf)
  {
  }

  /** A `scrapeFonts` that throws ends the crawl while nothing is visited, and is swallowed afterwards. */
  lemma FetchFailedTurn(st: Loop, maxRequests: real, policy: Policy, fontsOf: Source, linksOf: Source)
    requires st.frontier != [] && |st.visited| <= Cap(maxRequests)
    requires var url := st.frontier[|st.frontier| - 1];
      url !in st.visited && !PageLimitReached(st.visited, maxRequests) && fontsOf(url).Failure?
    ensures var url := st.frontier[|st.frontier| - 1];
      var failed := Loop(st.frontier[..|st.frontier| - 1], st.visited, st.fonts, st.calls + [ScrapeFonts(url)]);
      Run(st, maxRequests, policy, fontsOf, linksOf) ==
        if st.visited == {} then Crawled(Err(fontsOf(url).error), failed) else Run(failed, maxRequests, policy, fontsOf, linksOf)
  {
  }

  /** With `maxRequests === 1` or expansion disabled, the first scraped page ends the crawl. */
  lemma StopTurn(st: Loop, maxRequests: real, policy: Policy, fontsOf: Source, linksOf: Source)
    requires st.frontier != [] && |st.visited| <= Cap(maxRequests)
    requires var url := st.frontier[|st.frontier| - 1];
      url !in st.visited && !PageLimitReached(st.visited, maxRequests) && fontsOf(url).Success?
    requires maxRequests == 1.0 || policy == Disabled
    ensures var url := st.frontier[|st.frontier| - 1];
      var fonts := AddAll(st.fonts, fontsOf(url).value);
      Run(st, maxRequests, policy, fontsOf, linksOf) ==
        Crawled(Fonts(fonts), Loop(st.frontier[..|st.frontier| - 1], st.visited, fonts, st.calls + [ScrapeFonts(url)]))
  {
  }

  /** A `scrapeRelativeLinks` that throws is swallowed: its URL is already marked. */
  lemma LinksFailedTurn(st: Loop, maxRequests: real, policy: Policy, fontsOf: Source, linksOf: Source)
    requires st.frontier != [] && |st.visited| <= Cap(maxRequests)
    requires var url := st.frontier[|st.frontier| - 1];
      url !in st.visited && !PageLimitReached(st.visited, maxRequests) && fontsOf(url).Success? && linksOf(url).Failure?
    requires maxRequests != 1.0 && policy != Disabled
    ensures var url := st.frontier[|st.frontier| - 1];
      var after := Loop(st.frontier[..|st.frontier| - 1], st.visited + {url}, AddAll(st.fonts, fontsOf(url).value),
                        st.calls + [ScrapeFonts(url), ScrapeLinks(url)]);
      |after.visited| <= Cap(maxRequests) &&
      Run(st, maxRequests, policy, fontsOf, linksOf) == Run(after, maxRequests, policy, fontsOf, linksOf)
  {
    var url := st.frontier[|st.frontier| - 1];
    LimitAtCap(st.visited, maxRequests);
    assert st.calls + [ScrapeFonts(url)] + [ScrapeLinks(url)] == st.calls + [ScrapeFonts(url), ScrapeLinks(url)];
  }

  /** What `Crawl` promises about the trace and outcome of `Run`, read off `Final`. */
  lemma RunGuarantees(initialUrl: string, maxRequests: real, policy: Policy, fontsOf: Source, linksOf: Source)
    ensures var r := Run(Start(initialUrl), maxRequests, policy, fontsOf, linksOf);
      && (r.outcome.Fonts? ==> NoDup(r.outcome.fonts) && Elems(r.outcome.fonts) == Gathered(r.last.calls, fontsOf))
      && (r.outcome.Err? ==>
            r.last.calls == [ScrapeFonts(initialUrl)] && fontsOf(initialUrl) == Failure(r.outcome.message))
      && LinkCount(r.last.calls) <= Cap(maxRequests) && NoRefetch(r.last.calls)
      && MarksFollowFetches(r.last.calls, fontsOf)
  {
    CrawlIsSound(initialUrl, maxRequests, policy, fontsOf, linksOf);
  }

  /** `crawl(initialUrl, maxRequests, browser, crawlType)`. */
  method Crawl(initialUrl: string, maxRequests: real, policy: Policy, fontsOf: Source, linksOf: Source)
    returns (outcome: Outcome, ghost calls: seq<Call>)
    ensures outcome == Run(Start(initialUrl), maxRequests, policy, fontsOf, linksOf).outcome
    ensures calls == Run(Start(initialUrl), maxRequests, policy, fontsOf, linksOf).last.calls
    ensures outcome.Fonts? ==> NoDup(outcome.fonts) && Elems(outcome.fonts) == Gathered(calls, fontsOf)
    ensures outcome.Err? ==> calls == [ScrapeFonts(initialUrl)] && fontsOf(initialUrl) == Failure(outcome.message)
    ensures LinkCount(calls) <= Cap(maxRequests) && NoRefetch(calls) && MarksFollowFetches(calls, fontsOf)
  {
    var visitedSites: set<string> := {};
    var fontsToReturn: seq<string> := [];
    var urlsToScrape := [initialUrl];
    var fatal: Option<string> := None;
    calls := [];
    ghost var finished := false;
    ghost var result := Crawled(Fonts([]), Start(initialUrl));
    while urlsToScrape != []
      invariant |visitedSites| <= Cap(maxRequests)
      invariant Run(Loop(urlsToScrape, visitedSites, fontsToReturn, calls), maxRequests, policy, fontsOf, linksOf)
             == Run(Start(initialUrl), maxRequests, policy, fontsOf, linksOf)
      invariant !finished && fatal.None?
      decreases Cap(maxRequests) - |visitedSites|, |urlsToScrape|
    {
      ghost var before := Loop(urlsToScrape, visitedSites, fontsToReturn, calls);
      var url := urlsToScrape[|urlsToScrape| - 1];
      urlsToScrape := urlsToScrape[..|urlsToScrape| - 1];
      assert before.frontier[|before.frontier| - 1] == url && before.frontier[..|before.frontier| - 1] == urlsToScrape;
      if url in visitedSites || PageLimitReached(visitedSites, maxRequests) {
        SkipTurn(before, maxRequests, policy, fontsOf, linksOf);
        continue;
      }
      calls := calls + [ScrapeFonts(url)];
      var failure: Option<string> := None;
      match fontsOf(url) {
        case Failure(e) =>
          failure := Some(e);
          FetchFailedTurn(before, maxRequests, policy, fontsOf, linksOf);
        case Success(scrapedFonts) =>
          fontsToReturn := AddEach(fontsToReturn, scrapedFonts);
          if maxRequests == 1.0 || policy == Disabled {
            finished, result := true, Crawled(Fonts(fontsToReturn), Loop(urlsToScrape, visitedSites, fontsToReturn, calls));
            StopTurn(before, maxRequests, policy, fontsOf, linksOf);
            break;
          }
          LimitAtCap(visitedSites, maxRequests);
          visitedSites := visitedSites + {url};
          calls := calls + [ScrapeLinks(url)];
          assert calls == before.calls + [ScrapeFonts(url), ScrapeLinks(url)];
          match linksOf(url) {
            case Failure(e) =>
              failure := Some(e);
              LinksFailedTurn(before, maxRequests, policy, fontsOf, linksOf);
            case Success(links) =>
              urlsToScrape := EnqueueLinks(urlsToScrape, links, visitedSites, maxRequests, policy);
              Expand(before, Loop(urlsToScrape, visitedSites, fontsToReturn, calls), maxRequests, policy, fontsOf, linksOf);
          }
      }
      // The `catch` block: fatal only while `visitedSites` has no keys.
      if failure.Some? && |visitedSites| == 0 {
        fatal := failure;
        finished, result := true, Crawled(Err(failure.value), Loop(urlsToScrape, visitedSites, fontsToReturn, calls));
        break;
      }
    }
    if !finished {
      result := Crawled(Fonts(fontsToReturn), Loop(urlsToScrape, visitedSites, fontsToReturn, calls));
    }
    assert result == Run(Start(initialUrl), maxRequests, policy, fontsOf, linksOf);
    RunGuarantees(initialUrl, maxRequests, policy, fontsOf, linksOf);
    outcome := if fatal.Some? then Err(fatal.value) else Fonts(fontsToReturn);
    assert outcome == result.outcome && calls == result.last.calls;
  }
}
