/**
 * The string-level extraction rules of `src/helpers/scrapers.js`, with the
 * DOM replaced by the lists a query would return: style sheets as lists of
 * rules, tagged elements as their `font-family` values, anchors as their
 * `href` attribute and computed `href`, and the elements `querySelector`
 * and `querySelectorAll` choose from as a document-ordered list.
 */
module Scrapers {
  import opened Wrappers
  import opened Seqs

  // ---------------------------------------------------------------------------
  // The relative-URL classifier

  /**
   * One alternative of the negative lookahead at the head of the classifier
   * regex: a literal prefix, a scheme with an optional `s` followed by `://`,
   * or a drive root (one ASCII letter, `:` and a backslash).
   */
  datatype Alternative = Literal(text: string) | Scheme(name: string) | DriveRoot

  /** The lookahead's alternatives, in the order the regex lists them. */
  const Lookahead: seq<Alternative> :=
    [Literal("www."), Literal("#"), Literal("tel:"), Literal("mailto:"),
     Scheme("http"), Scheme("ftp"), DriveRoot, Literal("//")]

  predicate IsAsciiLetter(c: char) {
    'A' <= c <= 'Z' || 'a' <= c <= 'z'
  }

  /** An href that starts with a drive letter, a colon and a backslash. */
  predicate StartsWithDriveRoot(href: string) {
    |href| >= 3 && IsAsciiLetter(href[0]) && href[1] == ':' && href[2] == '\\'
  }

  /** Whether `alt` matches at the start of `href`. */
  predicate MatchesAtStart(alt: Alternative, href: string) {
    match alt
    case Literal(text) => text <= href
    case Scheme(name) => name + "://" <= href || name + "s://" <= href
    case DriveRoot => StartsWithDriveRoot(href)
  }

  /**
   * `href.match(relativeUrlRegex)` succeeds: the lookahead fails at the
   * start, after which `.*` matches (it may match nothing).
   */
  predicate IsRelativeUrl(href: string) {
    forall alt :: alt in Lookahead ==> !MatchesAtStart(alt, href)
  }

  /** The prefixes the classifier refuses, spelled out one by one. */
  const AbsolutePrefixes: seq<string> :=
    ["www.", "#", "tel:", "mailto:", "http://", "https://", "ftp://", "ftps://", "//"]

  /**
   * The classifier accepts an href exactly when it starts with none of the
   * listed prefixes and with no drive root.
   */
  lemma RelativeIffNoAbsolutePrefix(href: string)
    ensures IsRelativeUrl(href) <==>
      (forall p :: p in AbsolutePrefixes ==> !(p <= href)) && !StartsWithDriveRoot(href)
  {
    if IsRelativeUrl(href) {
      forall p | p in AbsolutePrefixes
        ensures !(p <= href)
      {
        if p == "http://" || p == "https://" {
          assert Scheme("http") in Lookahead;
        } else if p == "ftp://" || p == "ftps://" {
          assert Scheme("ftp") in Lookahead;
        } else {
          assert Literal(p) in Lookahead;
        }
      }
      assert DriveRoot in Lookahead;
    } else {
      var alt :| alt in Lookahead && MatchesAtStart(alt, href);
      RefusedByListedPrefix(alt, href);
    }
  }

  /** Each alternative of the lookahead is one or two of the listed prefixes, or the drive root. */
  lemma RefusedByListedPrefix(alt: Alternative, href: string)
    requires alt in Lookahead && MatchesAtStart(alt, href)
    ensures (exists p :: p in AbsolutePrefixes && p <= href) || StartsWithDriveRoot(href)
  {
    match alt
    case Literal(text) =>
      assert text in AbsolutePrefixes;
    case Scheme(name) =>
      if name == "http" {
        assert "http" + "://" == "http://" && "http" + "s://" == "https://";
        assert "http://" in AbsolutePrefixes && "https://" in AbsolutePrefixes;
      } else {
        assert name == "ftp";
        assert "ftp" + "://" == "ftp://" && "ftp" + "s://" == "ftps://";
        assert "ftp://" in AbsolutePrefixes && "ftps://" in AbsolutePrefixes;
      }
    case DriveRoot =>
  }

  /** The first two characters of an alternative longer than one character. */
  predicate OpensAlternative(a: char, b: char) {
    (a == 'w' && b == 'w') || (a == 't' && b == 'e') || (a == 'm' && b == 'a') ||
    (a == 'h' && b == 't') || (a == 'f' && b == 't') || (a == '/' && b == '/')
  }

  /** An href whose first two characters open no alternative is accepted. */
  lemma AcceptedByStart(href: string)
    requires |href| >= 1 && href[0] != '#'
    requires |href| >= 2 ==> !OpensAlternative(href[0], href[1])
    requires !StartsWithDriveRoot(href)
    ensures IsRelativeUrl(href)
  {
    forall alt | alt in Lookahead
      ensures !MatchesAtStart(alt, href)
    {
      match alt
      case Literal(text) =>
        assert text == "#" || (|text| >= 2 && OpensAlternative(text[0], text[1]));
      case Scheme(name) =>
        assert |name| >= 2 && OpensAlternative(name[0], name[1]);
        assert (name + "://")[0] == name[0] && (name + "://")[1] == name[1];
        assert (name + "s://")[0] == name[0] && (name + "s://")[1] == name[1];
      case DriveRoot =>
    }
  }
  /** Directory-relative hrefs are always accepted; origin-relative ones unless a second slash makes them scheme-relative. */
  lemma RelativeForms(path: string)
    ensures IsRelativeUrl("./" + path)
    ensures IsRelativeUrl("/" + path) <==> !("/" <= path)
  {
    assert ("./" + path)[0] == '.';
    AcceptedByStart("./" + path);
    if "/" <= path {
      assert Literal("//") in Lookahead && "//" <= "/" + path;
    } else if path != [] {
      assert ("/" + path)[1] == path[0];
      AcceptedByStart("/" + path);
    } else {
      AcceptedByStart("/" + path);
    }
  }
  /** The hrefs the comment above the regex says it matches. */
  lemma DocumentedAccepted()
    ensures IsRelativeUrl("./funky/town.html")
    ensures IsRelativeUrl("/funky/town.html")
    ensures IsRelativeUrl("funky/town.html")
  {
    AcceptedByStart("./funky/town.html");
    AcceptedByStart("/funky/town.html");
    AcceptedByStart("funky/town.html");
  }

  /** An href that the `i`-th alternative of the lookahead matches is refused. */
  lemma RefusedBy(i: nat, href: string)
    requires i < |Lookahead| && MatchesAtStart(Lookahead[i], href)
    ensures !IsRelativeUrl(href)
  {
  }

  /** An absolute `https` URL is refused by the scheme alternative. */
  lemma HttpsRefused()
    ensures !IsRelativeUrl("https://www.example.com/funky/town.html")
  {
    var href := "https://www.example.com/funky/town.html";
    assert "http" + "s://" == "https://";
    assert "https://" <= href;
    RefusedBy(4, href);
  }

  /** A scheme-relative URL is refused by the `//` alternative. */
  lemma SchemeRelativeRefused()
    ensures !IsRelativeUrl("//example.com/funky/town.html")
  {
    RefusedBy(7, "//example.com/funky/town.html");
  }

  /** A `mailto:` link is refused by its literal alternative. */
  lemma MailtoRefused()
    ensures !IsRelativeUrl("mailto:funky@town.com")
  {
    RefusedBy(3, "mailto:funky@town.com");
  }

  /** The hrefs the comment above the regex says it does not match. */
  lemma DocumentedRefused()
    ensures !IsRelativeUrl("https://www.example.com/funky/town.html")
    ensures !IsRelativeUrl("//example.com/funky/town.html")
    ensures !IsRelativeUrl("mailto:funky@town.com")
    ensures !IsRelativeUrl("#")
  {
    HttpsRefused();
    SchemeRelativeRefused();
    MailtoRefused();
    RefusedBy(1, "#");
  }

  /** The regex has no `i` flag: an upper-case scheme is not refused. */
  lemma SchemeIsCaseSensitive()
    ensures IsRelativeUrl("HTTP://example.com")
    ensures !IsRelativeUrl("http://example.com")
  {
    assert "HTTP://example.com"[0] == 'H';
    AcceptedByStart("HTTP://example.com");
    assert Scheme("http") in Lookahead && "http://" <= "http://example.com";
  }

  /** Refusal depends on a prefix only: whatever follows a refused href is refused too. */
  lemma RefusedStaysRefused(href: string, tail: string)
    requires !IsRelativeUrl(href)
    ensures !IsRelativeUrl(href + tail)
  {
    var alt :| alt in Lookahead && MatchesAtStart(alt, href);
    assert MatchesAtStart(alt, href + tail);
  }

  // ---------------------------------------------------------------------------
  // Font stacks

  /** `s` contains no `", "`. */
  predicate NoSeparator(s: string) {
    forall i :: 0 <= i < |s| - 1 ==> !(s[i] == ',' && s[i + 1] == ' ')
  }

  /**
   * `s.split(', ')`: the pieces between the occurrences of `", "`, found from
   * left to right; the empty string gives one empty piece.
   */
  function Split(s: string): (pieces: seq<string>)
    ensures |pieces| >= 1
    ensures forall k :: 0 <= k < |pieces| ==> NoSeparator(pieces[k])
  {
    if |s| < 2 then [s]
    else if s[0] == ',' && s[1] == ' ' then [""] + Split(s[2..])
    else
      var rest := Split(s[1..]);
      assert s[1] != ' ' || s[0] != ',';
      assert rest[0] == "" || rest[0][0] == s[1];
      [[s[0]] + rest[0]] + rest[1..]
  }

  /** The pieces put back together with `", "` between them. */
  function Join(pieces: seq<string>): string
    requires |pieces| >= 1
  {
    if |pieces| == 1 then pieces[0] else pieces[0] + ", " + Join(pieces[1..])
  }

  /** Prefixing a character to the first piece prefixes it to the joined value. */
  lemma {:induction false} JoinExtendsFirst(ch: char, pieces: seq<string>)
    requires |pieces| >= 1
    ensures Join([[ch] + pieces[0]] + pieces[1..]) == [ch] + Join(pieces)
  {
    var extended := [[ch] + pieces[0]] + pieces[1..];
    if |pieces| > 1 {
      assert extended[1..] == pieces[1..];
    }
  }

  /** Splitting loses nothing: joining the pieces gives back the value. */
  lemma {:induction false} JoinSplit(s: string)
    ensures Join(Split(s)) == s
    decreases |s|
  {
    if |s| < 2 {
    } else if s[0] == ',' && s[1] == ' ' {
      var rest := Split(s[2..]);
      JoinSplit(s[2..]);
      assert Split(s) == [""] + rest;
      assert ([""] + rest)[1..] == rest;
      assert s == ", " + s[2..];
    } else {
      var rest := Split(s[1..]);
      JoinSplit(s[1..]);
      assert Split(s) == [[s[0]] + rest[0]] + rest[1..];
      JoinExtendsFirst(s[0], rest);
      assert s == [s[0]] + s[1..];
    }
  }

  /** A piece without a separator, followed by one, is split off whole. */
  lemma {:induction false} SplitOffPiece(piece: string, rest: string)
    requires NoSeparator(piece)
    ensures Split(piece + ", " + rest) == [piece] + Split(rest)
    decreases |piece|
  {
    var s := piece + ", " + rest;
    if piece == [] {
      assert s == ", " + rest && s[2..] == rest;
    } else {
      var tail := piece[1..];
      assert NoSeparator(tail);
      assert s[1..] == tail + ", " + rest;
      SplitOffPiece(tail, rest);
      assert s[0] != ',' || s[1] != ' ' by {
        if |piece| > 1 {
          assert s[1] == piece[1];
        }
      }
      assert [s[0]] + tail == piece;
    }
  }

  /** A value without a separator is a single piece. */
  lemma {:induction false} SplitWhole(piece: string)
    requires NoSeparator(piece)
    ensures Split(piece) == [piece]
    decreases |piece|
  {
    if |piece| >= 2 {
      assert NoSeparator(piece[1..]);
      SplitWhole(piece[1..]);
      assert [piece[0]] + piece[1..] == piece;
    }
  }

  /** Splitting undoes joining pieces that contain no separator. */
  lemma {:induction false} SplitJoin(pieces: seq<string>)
    requires |pieces| >= 1
    requires forall k :: 0 <= k < |pieces| ==> NoSeparator(pieces[k])
    ensures Split(Join(pieces)) == pieces
    decreases |pieces|
  {
    if |pieces| == 1 {
      SplitWhole(pieces[0]);
    } else {
      SplitJoin(pieces[1..]);
      SplitOffPiece(pieces[0], Join(pieces[1..]));
      assert [pieces[0]] + pieces[1..] == pieces;
    }
  }

  /** A value with no comma contains no separator. */
  lemma CommaFree(s: string)
    requires ',' !in s
    ensures NoSeparator(s)
  {
  }

  /** A stack of three comma-free names splits into those names. */
  lemma SplitThree(first: string, second: string, third: string)
    requires ',' !in first && ',' !in second && ',' !in third
    ensures Split(first + ", " + second + ", " + third) == [first, second, third]
  {
    CommaFree(first);
    CommaFree(second);
    CommaFree(third);
    assert first + ", " + second + ", " + third == first + ", " + (second + ", " + third);
    SplitOffPiece(first, second + ", " + third);
    SplitOffPiece(second, third);
    SplitWhole(third);
  }

  /** The three-font stack of `StackExample`, written as its pieces. */
  lemma StackPieces()
    ensures "Helvetica, Arial, sans-serif" == "Helvetica" + ", " + "Arial" + ", " + "sans-serif"
  {
  }

  /** A three-font stack. */
  lemma StackExample(stack: string)
    requires stack == "Helvetica, Arial, sans-serif"
    ensures Split(stack) == ["Helvetica", "Arial", "sans-serif"]
  {
    StackPieces();
    SplitThree("Helvetica", "Arial", "sans-serif");
  }

  // ---------------------------------------------------------------------------
  // The style-sheet pass

  /**
   * A CSS rule: `None` when it has no `style` (an at-rule), otherwise the
   * value of its `font-family` property, `""` when it is not set.
   */
  datatype Rule = Rule(fontFamily: Option<string>)

  /** A style sheet: its `cssRules` throw (a cross-origin sheet), or the rules. */
  datatype Sheet = Inaccessible | Readable(rules: seq<Rule>)

  /** `rule.style && rule.style['font-family']` is truthy. */
  predicate Declares(rule: Rule) {
    rule.fontFamily.Some? && rule.fontFamily.value != ""
  }

  /** The pieces a rule adds, in order. */
  function RulePieces(rule: Rule): seq<string> {
    if Declares(rule) then Split(rule.fontFamily.value) else []
  }

  /** The pieces a run of rules adds, in order. */
  function RulesPieces(rules: seq<Rule>): seq<string> {
    Flatten(rules, RulePieces)
  }

  /** The pieces a sheet adds: none when its rules cannot be read. */
  function SheetPieces(sheet: Sheet): seq<string> {
    match sheet
    case Inaccessible => []
    case Readable(rules) => RulesPieces(rules)
  }

  /** The pieces the sheet pass adds, in order. */
  function SheetsPieces(sheets: seq<Sheet>): seq<string> {
    Flatten(sheets, SheetPieces)
  }

  /** An unreadable sheet is skipped without disturbing the sheets around it. */
  lemma InaccessibleSkipped(before: seq<Sheet>, after: seq<Sheet>)
    ensures SheetsPieces(before + [Inaccessible] + after) == SheetsPieces(before + after)
  {
    FlattenAppend(before + [Inaccessible], after, SheetPieces);
    FlattenSnoc(before, Inaccessible, SheetPieces);
    FlattenAppend(before, after, SheetPieces);
  }

  /** A rule with no `font-family` adds nothing. */
  lemma UndeclaredSkipped(rules: seq<Rule>, rule: Rule)
    requires !Declares(rule)
    ensures RulesPieces(rules + [rule]) == RulesPieces(rules)
  {
    FlattenSnoc(rules, rule, RulePieces);
  }

  /** `rules.forEach(...)` of one readable sheet, adding to the set holding `fonts`. */
  method AddRules(fonts: seq<string>, rules: seq<Rule>) returns (r: seq<string>)
    ensures r == AddAll(fonts, RulesPieces(rules))
  {
    r := fonts;
    for j := 0 to |rules|
      invariant r == AddAll(fonts, RulesPieces(rules[..j]))
    {
      var rule := rules[j];
      assert rules[..j + 1] == rules[..j] + [rule];
      FlattenSnoc(rules[..j], rule, RulePieces);
      AddAllAppend(fonts, RulesPieces(rules[..j]), RulePieces(rule));
      if rule.fontFamily.Some? && rule.fontFamily.value != "" {
        r := AddEach(r, Split(rule.fontFamily.value));
      }
    }
    assert rules[..|rules|] == rules;
  }

  /** The style-sheet pass (`scrapeSheets`, inside `page.evaluate`). */
  method ScrapeSheets(styleSheets: seq<Sheet>) returns (data: seq<string>)
    ensures data == Dedup(SheetsPieces(styleSheets))
    ensures NoDup(data)
    ensures Elems(data) == Elems(SheetsPieces(styleSheets))
  {
    var fonts: seq<string> := [];
    for i := 0 to |styleSheets|
      invariant fonts == AddAll([], SheetsPieces(styleSheets[..i]))
    {
      var sheet := styleSheets[i];
      assert styleSheets[..i + 1] == styleSheets[..i] + [sheet];
      FlattenSnoc(styleSheets[..i], sheet, SheetPieces);
      AddAllAppend([], SheetsPieces(styleSheets[..i]), SheetPieces(sheet));
      match sheet {
        case Inaccessible =>   // the `try`/`catch` around `cssRules`: skipped
        case Readable(rules) =>
          fonts := AddRules(fonts, rules);
      }
    }
    assert styleSheets[..|styleSheets|] == styleSheets;
    data := fonts;
  }

  // ---------------------------------------------------------------------------
  // The style-attribute pass

  /** The pieces the tag pass adds: every `font-family` value is split, even an empty one. */
  function TagsPieces(fontFamilies: seq<string>): seq<string> {
    Flatten(fontFamilies, Split)
  }

  /**
   * The style-attribute pass (`scrapeTags`), given the `font-family` value of
   * every element whose `style` attribute mentions `font-family`.
   */
  method ScrapeTags(fontFamilies: seq<string>) returns (data: seq<string>)
    ensures data == Dedup(TagsPieces(fontFamilies))
    ensures NoDup(data)
    ensures Elems(data) == Elems(TagsPieces(fontFamilies))
  {
    var fonts: seq<string> := [];
    for i := 0 to |fontFamilies|
      invariant fonts == AddAll([], TagsPieces(fontFamilies[..i]))
    {
      assert fontFamilies[..i + 1][..i] == fontFamilies[..i];
      fonts := AddEach(fonts, Split(fontFamilies[i]));
      AddAllAppend([], TagsPieces(fontFamilies[..i]), Split(fontFamilies[i]));
    }
    assert fontFamilies[..|fontFamilies|] == fontFamilies;
    data := fonts;
  }

  /** An element whose `font-family` is set but empty contributes the empty font name. */
  lemma EmptyStyleValue()
    ensures "" in TagsPieces([""])
  {
    assert Split("") == [""];
    assert [""][..0] == [];
  }

  /**
   * `scrapeFonts`: the sheet pass's fonts followed by the tag pass's, with no
   * deduplication between the two.
   */
  method ScrapeFonts(styleSheets: seq<Sheet>, fontFamilies: seq<string>) returns (fonts: seq<string>)
    ensures fonts == Dedup(SheetsPieces(styleSheets)) + Dedup(TagsPieces(fontFamilies))
    ensures forall font :: (multiset(fonts)[font] ==
      (if font in SheetsPieces(styleSheets) then 1 else 0) + (if font in TagsPieces(fontFamilies) then 1 else 0))
  {
    var sheets := ScrapeSheets(styleSheets);
    var tags := ScrapeTags(fontFamilies);
    fonts := sheets + tags;
    forall font
      ensures multiset(fonts)[font] ==
        (if font in SheetsPieces(styleSheets) then 1 else 0) + (if font in TagsPieces(fontFamilies) then 1 else 0)
    {
      NoDupOccurrences(sheets, font);
      NoDupOccurrences(tags, font);
      assert font in sheets <==> font in Elems(sheets);
      assert font in tags <==> font in Elems(tags);
      assert font in SheetsPieces(styleSheets) <==> font in Elems(SheetsPieces(styleSheets));
      assert font in TagsPieces(fontFamilies) <==> font in Elems(TagsPieces(fontFamilies));
    }
  }

  // ---------------------------------------------------------------------------
  // Relative links

  /**
   * A link of `document.links`: its `href` attribute as written (`None` when
   * absent) and its `href` property, the absolute URL the browser computed.
   */
  datatype Link = Link(hrefAttribute: Option<string>, href: string)

  /** `href && href.match(relativeUrlRegex)`. */
  predicate Qualifies(link: Link) {
    link.hrefAttribute.Some? && link.hrefAttribute.value != "" && IsRelativeUrl(link.hrefAttribute.value)
  }

  /** The computed hrefs of the qualifying links, in document order. */
  function RelativeHrefs(links: seq<Link>): (hrefs: seq<string>)
    ensures forall u :: u in hrefs <==> exists k :: 0 <= k < |links| && Qualifies(links[k]) && links[k].href == u
    decreases |links|
  {
    if links == [] then []
    else
      var init, last := links[..|links| - 1], links[|links| - 1];
      var prior := RelativeHrefs(init);
      assert forall k :: 0 <= k < |init| ==> init[k] == links[k];
      if Qualifies(last) then prior + [last.href] else prior
  }

  /** One more link adds its computed href when it qualifies. */
  lemma RelativeHrefsSnoc(links: seq<Link>, link: Link)
    ensures RelativeHrefs(links + [link]) == RelativeHrefs(links) + (if Qualifies(link) then [link.href] else [])
  {
    assert (links + [link])[..|links|] == links;
  }

  /** A link with a missing or empty `href` attribute never contributes. */
  lemma {:induction false} BlankAttributeIgnored(before: seq<Link>, link: Link, after: seq<Link>)
    requires link.hrefAttribute.None? || link.hrefAttribute == Some("")
    ensures RelativeHrefs(before + [link] + after) == RelativeHrefs(before + after)
    decreases |after|
  {
    if after == [] {
      RelativeHrefsSnoc(before, link);
      assert before + [link] + after == before + [link];
      assert before + after == before;
    } else {
      var init, last := after[..|after| - 1], after[|after| - 1];
      BlankAttributeIgnored(before, link, init);
      assert before + [link] + after == (before + [link] + init) + [last];
      assert before + after == (before + init) + [last];
      RelativeHrefsSnoc(before + [link] + init, last);
      RelativeHrefsSnoc(before + init, last);
    }
  }

  /** `scrapeRelativeLinks`, inside `page.evaluate`. */
  method ScrapeRelativeLinks(links: seq<Link>) returns (data: seq<string>)
    ensures data == Dedup(RelativeHrefs(links))
    ensures NoDup(data)
    ensures Elems(data) == Elems(RelativeHrefs(links))
  {
    if |links| == 0 {   // `if (!links.length) { return []; }`
      data := [];
    } else {
      var uniqueLinks: seq<string> := [];
      for i := 0 to |links|
        invariant uniqueLinks == AddAll([], RelativeHrefs(links[..i]))
      {
        var link := links[i];
        assert links[..i + 1] == links[..i] + [link];
        RelativeHrefsSnoc(links[..i], link);
        var href := link.hrefAttribute;
        if href.Some? && href.value != "" && IsRelativeUrl(href.value) {
          AddAllSnoc([], RelativeHrefs(links[..i]), link.href);
          if link.href !in uniqueLinks {
            uniqueLinks := uniqueLinks + [link.href];
          }
        } else {
          assert RelativeHrefs(links[..i + 1]) == RelativeHrefs(links[..i]);
        }
      }
      assert links[..|links|] == links;
      data := uniqueLinks;
    }
  }

  // ---------------------------------------------------------------------------
  // The gallery and the landing page

  /**
   * An element as a selector sees it: its tag name, its classes, whether the
   * DOM object is an `HTMLAnchorElement` (an `a` in another namespace is not)
   * and its `href` property (`""` when it has none).
   */
  datatype Element = Element(tagName: string, classes: set<string>, htmlAnchor: bool, href: string)

  /** The element matches the selector `a.<class>`. */
  predicate Selects(e: Element, selectorClass: string) {
    e.tagName == "a" && selectorClass in e.classes
  }

  /**
   * `scrapeLandingPages`: the `href` of every `a.preview` element, in
   * document order.
   */
  function LandingPages(document: seq<Element>): (hrefs: seq<string>)
    ensures |hrefs| <= |document|
    ensures hrefs == [] <==> forall k :: 0 <= k < |document| ==> !Selects(document[k], "preview")
    ensures forall u :: u in hrefs ==> exists k :: 0 <= k < |document| && Selects(document[k], "preview") && document[k].href == u
    decreases |document|
  {
    if document == [] then []
    else
      var rest := LandingPages(document[1..]);
      assert forall k :: 0 < k < |document| ==> document[k] == document[1..][k - 1];
      if Selects(document[0], "preview") then [document[0].href] + rest else rest
  }

  /** Landing pages of consecutive parts of a document follow each other. */
  lemma {:induction false} LandingPagesAppend(a: seq<Element>, b: seq<Element>)
    ensures LandingPages(a + b) == LandingPages(a) + LandingPages(b)
    decreases |a|
  {
    if a == [] {
      assert a + b == b;
    } else {
      assert (a + b)[1..] == a[1..] + b;
      LandingPagesAppend(a[1..], b);
    }
  }

  /** `document.querySelector('a.<class>')`: the first match in document order. */
  function FirstSelected(document: seq<Element>, selectorClass: string): (r: Option<Element>)
    ensures r.None? <==> forall k :: 0 <= k < |document| ==> !Selects(document[k], selectorClass)
    ensures r.Some? ==> exists k :: (0 <= k < |document| && document[k] == r.value && Selects(r.value, selectorClass)
      && forall j :: 0 <= j < k ==> !Selects(document[j], selectorClass))
    decreases |document|
  {
    if document == [] then None
    else if Selects(document[0], selectorClass) then Some(document[0])
    else
      var r := FirstSelected(document[1..], selectorClass);
      assert forall k :: 0 < k < |document| ==> document[k] == document[1..][k - 1];
      r
  }

  const NotAnAnchor := "Expected an 'anchor' element."

  /**
   * `grabLinkFromLandingPage`: `null` (`None`) when there is no
   * `a.site-link`, a thrown error when the match is not an anchor element,
   * otherwise its `href`.
   */
  function GrabLink(document: seq<Element>): (r: Result<Option<string>, string>)
    ensures r == Success(None) <==> forall k :: 0 <= k < |document| ==> !Selects(document[k], "site-link")
    ensures r.Failure? <==> exists k :: (0 <= k < |document| && Selects(document[k], "site-link")
      && !document[k].htmlAnchor && forall j :: 0 <= j < k ==> !Selects(document[j], "site-link"))
    ensures r.Failure? ==> r.error == NotAnAnchor
    ensures r.Success? && r.value.Some? ==> exists k :: (0 <= k < |document| && Selects(document[k], "site-link")
      && document[k].htmlAnchor && document[k].href == r.value.value
      && forall j :: 0 <= j < k ==> !Selects(document[j], "site-link"))
  {
    match FirstSelected(document, "site-link")
    case None => Success(None)
    case Some(anchor) =>
      if !anchor.htmlAnchor then Failure(NotAnAnchor) else Success(Some(anchor.href))
  }
}
