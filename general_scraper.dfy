/** `GeneralScraper` (grawt/scraper/general_scraper.py), the default scraper.
    Each extractor is a method with the source's loop, proved equal to a
    specification function; the lemmas below state what those functions mean. */
module GeneralScraper {
  import opened Wrappers
  import opened Errors
  import opened Html
  import opened Seqs
  import opened Urls
  import opened Models
  import opened BaseScraper

  // ---------------------------------------------------------------- headline

  /** `soup.find_all(f'h{level}')`, as texts, in document order. */
  function LevelHeadings(hs: seq<Heading>, level: int): (r: seq<string>)
    ensures |r| <= |hs|
  {
    if hs == [] then []
    else
      var last := hs[|hs| - 1];
      LevelHeadings(hs[..|hs| - 1], level) + (if last.level == level then [last.text] else [])
  }

  /** The list the heading loop has built after levels 1 to `n`: every h1,
      then every h2, and so on. */
  function HeadingsUpTo(hs: seq<Heading>, n: nat): seq<string>
  {
    if n == 0 then [] else HeadingsUpTo(hs, n - 1) + LevelHeadings(hs, n)
  }

  /** What `extract_headline` returns or raises. */
  function Headline(doc: Document): Result<string, Error>
  {
    var all := HeadingsUpTo(doc.headings, 6);
    if |all| > 0 then Success(all[0])
    else match doc.title
      case Some(t) => Success(t)
      case None => Failure(NoTitle)
  }

  method ExtractHeadline(doc: Document) returns (r: Result<string, Error>)
    ensures r == Headline(doc)
  {
    var headlines: seq<string> := [];
    for i := 1 to 7
      invariant headlines == HeadingsUpTo(doc.headings, i - 1)
    {
      var current := LevelHeadings(doc.headings, i);
      headlines := headlines + current;
    }
    if |headlines| > 0 {
      r := Success(headlines[0]);
    } else if doc.title.Some? {
      r := Success(doc.title.value);
    } else {
      r := Failure(NoTitle);
    }
  }

  /** The first heading of the lowest level present. */
  ghost function FirstOfLowest(hs: seq<Heading>): (j: nat)
    requires hs != []
    ensures j < |hs|
    ensures forall k :: 0 <= k < |hs| ==> hs[j].level <= hs[k].level
    ensures forall k :: 0 <= k < j ==> hs[k].level != hs[j].level
  {
    var pre := hs[..|hs| - 1];
    if pre == [] then 0
    else
      var i := FirstOfLowest(pre);
      if hs[|hs| - 1].level < hs[i].level then |hs| - 1 else i
  }

  lemma {:induction false} LevelHeadingsNone(hs: seq<Heading>, level: int)
    requires forall k :: 0 <= k < |hs| ==> hs[k].level != level
    ensures LevelHeadings(hs, level) == []
  {
    if hs != [] {
      LevelHeadingsNone(hs[..|hs| - 1], level);
    }
  }

  lemma {:induction false} LevelHeadingsFirst(hs: seq<Heading>, j: nat)
    requires j < |hs|
    requires forall k :: 0 <= k < j ==> hs[k].level != hs[j].level
    ensures LevelHeadings(hs, hs[j].level) != []
    ensures LevelHeadings(hs, hs[j].level)[0] == hs[j].text
  {
    var pre := hs[..|hs| - 1];
    if j == |hs| - 1 {
      LevelHeadingsNone(pre, hs[j].level);
    } else {
      LevelHeadingsFirst(pre, j);
    }
  }

  lemma {:induction false} HeadingsUpToNone(hs: seq<Heading>, n: nat)
    requires forall k :: 0 <= k < |hs| ==> hs[k].level > n
    ensures HeadingsUpTo(hs, n) == []
  {
    if n > 0 {
      HeadingsUpToNone(hs, n - 1);
      LevelHeadingsNone(hs, n);
    }
  }

  lemma {:induction false} HeadingsUpToGrows(hs: seq<Heading>, m: nat, n: nat)
    requires m <= n
    ensures HeadingsUpTo(hs, m) <= HeadingsUpTo(hs, n)
  {
    if m < n {
      HeadingsUpToGrows(hs, m, n - 1);
    }
  }

  /** The headline is the first h1 if there is one, else the first h2, and so
      on through h6: the first heading of the lowest level present. */
  lemma HeadlineIsFirstOfLowestLevel(doc: Document, j: nat)
    requires j < |doc.headings|
    requires forall k :: 0 <= k < |doc.headings| ==> doc.headings[j].level <= doc.headings[k].level
    requires forall k :: 0 <= k < j ==> doc.headings[k].level != doc.headings[j].level
    ensures Headline(doc) == Success(doc.headings[j].text)
  {
    var hs := doc.headings;
    var level: int := hs[j].level;
    HeadingsUpToNone(hs, level - 1);
    LevelHeadingsFirst(hs, j);
    var upTo := HeadingsUpTo(hs, level);
    assert upTo == HeadingsUpTo(hs, level - 1) + LevelHeadings(hs, level);
    HeadingsUpToGrows(hs, level, 6);
    var all := HeadingsUpTo(hs, 6);
    assert all[0] == upTo[0] == hs[j].text;
  }

  /** With headings present the headline is one of their texts; with none it
      is the title's text, and without a title the extractor raises. */
  lemma HeadlineSource(doc: Document)
    ensures doc.headings != [] ==>
      Headline(doc) == Success(doc.headings[FirstOfLowest(doc.headings)].text)
    ensures doc.headings == [] && doc.title.Some? ==> Headline(doc) == Success(doc.title.value)
    ensures Headline(doc).Failure? <==> doc.headings == [] && doc.title.None?
    ensures Headline(doc).Failure? ==> Headline(doc).error == NoTitle
  {
    if doc.headings != [] {
      HeadlineIsFirstOfLowestLevel(doc, FirstOfLowest(doc.headings));
    } else {
      HeadingsUpToNone(doc.headings, 6);
    }
  }

  // --------------------------------------------------------------- main text

  /** The paragraph filter `len(text) >= min_chars`. */
  function IsLongEnough(minChars: int): string -> bool
  {
    p => |p| >= minChars
  }

  /** Each text followed by a newline, concatenated in order. */
  function Lines(texts: seq<string>): (r: string)
    ensures |r| >= |texts|
  {
    if texts == [] then ""
    else Lines(texts[..|texts| - 1]) + texts[|texts| - 1] + "\n"
  }

  /** What `extract_main_text(soup, min_chars)` returns. */
  function MainText(doc: Document, minChars: int): string
  {
    Lines(Filter(doc.paragraphs, IsLongEnough(minChars)))
  }

  method ExtractMainText(doc: Document, minChars: int) returns (fullText: string)
    ensures fullText == MainText(doc, minChars)
  {
    fullText := "";
    for i := 0 to |doc.paragraphs|
      invariant fullText == Lines(Filter(doc.paragraphs[..i], IsLongEnough(minChars)))
    {
      var text := doc.paragraphs[i];
      ghost var kept := Filter(doc.paragraphs[..i], IsLongEnough(minChars));
      assert doc.paragraphs[..i + 1][..i] == doc.paragraphs[..i];
      assert IsLongEnough(minChars)(text) == (|text| >= minChars);
      if |text| >= minChars {
        assert Filter(doc.paragraphs[..i + 1], IsLongEnough(minChars)) == kept + [text];
        assert (kept + [text])[..|kept|] == kept;
        fullText := fullText + text + "\n";
      } else {
        assert Filter(doc.paragraphs[..i + 1], IsLongEnough(minChars)) == kept;
      }
    }
    assert doc.paragraphs[..|doc.paragraphs|] == doc.paragraphs;
  }

  /** The main text is empty exactly when no paragraph is long enough. */
  lemma MainTextEmpty(doc: Document, minChars: int)
    ensures MainText(doc, minChars) == "" <==>
      forall i :: 0 <= i < |doc.paragraphs| ==> |doc.paragraphs[i]| < minChars
  {
    FilterEmpty(doc.paragraphs, IsLongEnough(minChars));
  }

  /** A minimum of zero or less lets every paragraph through. */
  lemma MainTextKeepsAll(doc: Document, minChars: int)
    requires minChars <= 0
    ensures MainText(doc, minChars) == Lines(doc.paragraphs)
  {
    FilterKeepsAll(doc.paragraphs, IsLongEnough(minChars));
  }

  /** A paragraph's text is in the main text if it is long enough, and every
      text joined into it comes from a long enough paragraph. */
  lemma MainTextParagraphs(doc: Document, minChars: int, p: string)
    ensures p in Filter(doc.paragraphs, IsLongEnough(minChars)) <==>
      p in doc.paragraphs && |p| >= minChars
  {
    FilterMembers(doc.paragraphs, IsLongEnough(minChars), p);
  }

  // -------------------------------------------------------------------- date

  /** The timestamps the loop of `extract_date` collects: each `datetime`
      value the parser accepts, in order; values it rejects are skipped. A
      `<time>` without the attribute makes the parser raise a TypeError, which
      the loop does not catch. */
  function Parsed(times: seq<Option<string>>, parse: string -> Option<int>): Result<seq<int>, Error>
  {
    if times == [] then Success([])
    else
      var earlier :- Parsed(times[..|times| - 1], parse);
      match times[|times| - 1]
      case None => Failure(MissingDatetime)
      case Some(s) => Success(earlier + (match parse(s) case Some(t) => [t] case None => []))
  }

  /** Python's `min` over a non-empty list. */
  function Earliest(ds: seq<int>): (m: int)
    requires ds != []
    ensures m in ds
    ensures forall i :: 0 <= i < |ds| ==> m <= ds[i]
  {
    if |ds| == 1 then ds[0]
    else
      var m := Earliest(ds[..|ds| - 1]);
      if ds[|ds| - 1] < m then ds[|ds| - 1] else m
  }

  /** What `extract_date` returns or raises, with `now` the clock reading. */
  function Date(doc: Document, parse: string -> Option<int>, now: int): Result<int, Error>
  {
    var ds :- Parsed(doc.times, parse);
    Success(if ds == [] then now else Earliest(ds))
  }

  method ExtractDate(doc: Document, parse: string -> Option<int>, now: int) returns (r: Result<int, Error>)
    ensures r == Date(doc, parse, now)
  {
    var datetimes: seq<int> := [];
    for i := 0 to |doc.times|
      invariant Parsed(doc.times[..i], parse) == Success(datetimes)
    {
      assert doc.times[..i + 1][..i] == doc.times[..i];
      assert doc.times[..i + 1][i] == doc.times[i];
      match doc.times[i]
      case None =>
        ParsedFailure(doc.times, parse);
        assert doc.times[i] in doc.times;
        return Failure(MissingDatetime);
      case Some(dateStr) =>
        ghost var step := match parse(dateStr) case Some(t) => [t] case None => [];
        assert Parsed(doc.times[..i + 1], parse) == Success(datetimes + step);
        match parse(dateStr)
        case Some(t) => datetimes := datetimes + [t];
        case None => assert datetimes + step == datetimes;
    }
    assert doc.times[..|doc.times|] == doc.times;
    if |datetimes| > 0 {
      r := Success(Earliest(datetimes));
    } else {
      r := Success(now);
    }
  }

  /** The `<time>` element at `i` has a value the parser turns into `t`. */
  predicate ParsesTo(times: seq<Option<string>>, parse: string -> Option<int>, i: int, t: int)
  {
    0 <= i < |times| && times[i].Some? && parse(times[i].value) == Some(t)
  }

  lemma {:induction false} ParsedFailure(times: seq<Option<string>>, parse: string -> Option<int>)
    ensures Parsed(times, parse).Failure? <==> None in times
    ensures Parsed(times, parse).Failure? ==> Parsed(times, parse).error == MissingDatetime
  {
    if times != [] {
      var pre := times[..|times| - 1];
      ParsedFailure(pre, parse);
      assert times == pre + [times[|times| - 1]];
    }
  }

  lemma {:induction false} ParsedValues(times: seq<Option<string>>, parse: string -> Option<int>, t: int)
    requires None !in times
    ensures Parsed(times, parse).Success?
    ensures t in Parsed(times, parse).value <==> exists i :: ParsesTo(times, parse, i, t)
  {
    ParsedFailure(times, parse);
    if times != [] {
      var n := |times| - 1;
      var pre := times[..n];
      assert times[n] in times;
      assert forall x :: x in pre ==> x in times;
      ParsedValues(pre, parse, t);
      if exists i :: ParsesTo(times, parse, i, t) {
        var i :| ParsesTo(times, parse, i, t);
        if i < n {
          assert ParsesTo(pre, parse, i, t);
        }
      }
      if exists i :: ParsesTo(pre, parse, i, t) {
        var i :| ParsesTo(pre, parse, i, t);
        assert ParsesTo(times, parse, i, t);
      }
      var last := times[n].value;
      assert Parsed(times, parse).value ==
        Parsed(pre, parse).value + (match parse(last) case Some(x) => [x] case None => []);
      if parse(last) == Some(t) {
        assert ParsesTo(times, parse, n, t);
      }
    }
  }

  /** `extract_date` raises exactly when some `<time>` lacks a `datetime`
      attribute. */
  lemma DateFailure(doc: Document, parse: string -> Option<int>, now: int)
    ensures Date(doc, parse, now).Failure? <==> None in doc.times
    ensures Date(doc, parse, now).Failure? ==> Date(doc, parse, now).error == MissingDatetime
  {
    ParsedFailure(doc.times, parse);
  }

  /** When some value parses, the date is the earliest parsed timestamp. */
  lemma DateIsEarliest(doc: Document, parse: string -> Option<int>, now: int, i: int, t: int)
    requires None !in doc.times
    requires ParsesTo(doc.times, parse, i, t)
    ensures Date(doc, parse, now).Success?
    ensures Date(doc, parse, now).value <= t
    ensures exists j :: ParsesTo(doc.times, parse, j, Date(doc, parse, now).value)
  {
    ParsedValues(doc.times, parse, t);
    var ds := Parsed(doc.times, parse).value;
    var m := Earliest(ds);
    ParsedValues(doc.times, parse, m);
  }

  /** When no value parses (in particular with no `<time>` at all), the date
      is the clock reading. */
  lemma DateFallsBackToNow(doc: Document, parse: string -> Option<int>, now: int)
    requires None !in doc.times
    requires forall i, t :: !ParsesTo(doc.times, parse, i, t)
    ensures Date(doc, parse, now) == Success(now)
  {
    ParsedFailure(doc.times, parse);
    var ds := Parsed(doc.times, parse).value;
    if ds != [] {
      ParsedValues(doc.times, parse, ds[0]);
    }
  }

  // ------------------------------------------------------------------- links

  /** What `extract_all_hrefs` returns: the `href` of every anchor that has
      one, in document order. */
  function Hrefs(anchors: seq<Option<string>>): (r: seq<string>)
    ensures |r| <= |anchors|
  {
    if anchors == [] then []
    else
      Hrefs(anchors[..|anchors| - 1]) +
      (match anchors[|anchors| - 1] case Some(h) => [h] case None => [])
  }

  method ExtractAllHrefs(doc: Document) returns (links: seq<string>)
    ensures links == Hrefs(doc.anchors)
  {
    links := [];
    for i := 0 to |doc.anchors|
      invariant links == Hrefs(doc.anchors[..i])
    {
      assert doc.anchors[..i + 1][..i] == doc.anchors[..i];
      assert doc.anchors[..i + 1][i] == doc.anchors[i];
      var link := doc.anchors[i];
      if link.Some? {
        links := links + [link.value];
      }
    }
    assert doc.anchors[..|doc.anchors|] == doc.anchors;
  }

  lemma {:induction false} HrefsMembers(anchors: seq<Option<string>>, h: string)
    ensures h in Hrefs(anchors) <==> Some(h) in anchors
  {
    if anchors != [] {
      var pre := anchors[..|anchors| - 1];
      HrefsMembers(pre, h);
      assert anchors == pre + [anchors[|anchors| - 1]];
    }
  }

  /** Hrefs are collected in document order and never merged: the hrefs of
      two consecutive runs of anchors are the two runs' hrefs, concatenated. */
  lemma {:induction false} HrefsAppend(a: seq<Option<string>>, b: seq<Option<string>>)
    ensures Hrefs(a + b) == Hrefs(a) + Hrefs(b)
  {
    if b != [] {
      var b' := b[..|b| - 1];
      HrefsAppend(a, b');
      assert (a + b)[..|a + b| - 1] == a + b';
      assert (a + b)[|a + b| - 1] == b[|b| - 1];
    } else {
      assert a + b == a;
    }
  }

  /** When every anchor has an href, duplicates included, all are returned. */
  lemma {:induction false} HrefsKeepsAll(anchors: seq<Option<string>>)
    requires None !in anchors
    ensures |Hrefs(anchors)| == |anchors|
    ensures forall i :: 0 <= i < |anchors| ==> anchors[i] == Some(Hrefs(anchors)[i])
  {
    if anchors != [] {
      var pre := anchors[..|anchors| - 1];
      assert forall x :: x in pre ==> x in anchors;
      HrefsKeepsAll(pre);
      assert anchors[|anchors| - 1] in anchors;
    }
  }

  /** What `extract_netloc_links` returns: the hrefs with a non-empty netloc. */
  function NetlocLinks(doc: Document): seq<string>
  {
    Filter(Hrefs(doc.anchors), HasNetloc)
  }

  method ExtractNetlocLinks(doc: Document) returns (netlocUrls: seq<string>)
    ensures netlocUrls == NetlocLinks(doc)
  {
    var hrefs := ExtractAllHrefs(doc);
    netlocUrls := [];
    for i := 0 to |hrefs|
      invariant netlocUrls == Filter(hrefs[..i], HasNetloc)
    {
      assert hrefs[..i + 1][..i] == hrefs[..i];
      assert hrefs[..i + 1][i] == hrefs[i];
      var url := hrefs[i];
      if Netloc(url) != "" {
        netlocUrls := netlocUrls + [url];
      }
    }
    assert hrefs[..|hrefs|] == hrefs;
  }

  /** The netloc links are the hrefs with a netloc, in their order: a
      subsequence of the hrefs, and filtering them again changes nothing. */
  lemma NetlocLinksFilter(doc: Document)
    ensures IsSubsequence(NetlocLinks(doc), Hrefs(doc.anchors))
    ensures forall u :: u in NetlocLinks(doc) <==> u in Hrefs(doc.anchors) && HasNetloc(u)
    ensures Filter(NetlocLinks(doc), HasNetloc) == NetlocLinks(doc)
  {
    FilterIsSubsequence(Hrefs(doc.anchors), HasNetloc);
    forall u ensures u in NetlocLinks(doc) <==> u in Hrefs(doc.anchors) && HasNetloc(u) {
      FilterMembers(Hrefs(doc.anchors), HasNetloc, u);
    }
    FilterIdempotent(Hrefs(doc.anchors), HasNetloc);
  }

  /** With a minimum of 10, a five-character paragraph is left out. */
  lemma MainTextExample()
    ensures MainText(Document([], None, ["short", "a sufficiently long paragraph"], [], []), 10)
      == "a sufficiently long paragraph\n"
  {
  }

  // ------------------------------------------------------ the scraper itself

  /** `GeneralScraper()` as a scraper, for a given date parser and clock
      reading. */
  function General(parse: string -> Option<int>, now: int): (s: Scraper)
    ensures s.typeName == "GeneralScraper"
  {
    Scraper(
      "GeneralScraper",
      (doc: Document) => Headline(doc),
      (doc: Document, minChars: int) => Success(MainText(doc, minChars)),
      (doc: Document) => Date(doc, parse, now),
      (doc: Document) => Success(Hrefs(doc.anchors)),
      (doc: Document) => Success(NetlocLinks(doc)))
  }

  /** Scraping with the general scraper fails exactly when the page has
      neither a heading nor a title, or has a `<time>` without `datetime`;
      a record it produces keeps only hrefs with a netloc as netloc links, in
      order. */
  lemma GeneralScrape(parse: string -> Option<int>, now: int, doc: Document, minChars: int)
    ensures ScrapeArticle(General(parse, now), doc, minChars).Success? <==>
      (doc.headings != [] || doc.title.Some?) && None !in doc.times
    ensures ScrapeArticle(General(parse, now), doc, minChars).Success? ==>
      var a := ScrapeArticle(General(parse, now), doc, minChars).value;
      a.url == None && a.mainText == MainText(doc, minChars) &&
      IsSubsequence(a.netlocLinks, a.hrefs) &&
      forall i :: 0 <= i < |a.netlocLinks| ==> HasNetloc(a.netlocLinks[i])
  {
    HeadlineSource(doc);
    DateFailure(doc, parse, now);
    NetlocLinksFilter(doc);
    FilterAllKept(Hrefs(doc.anchors), HasNetloc);
  }
}
