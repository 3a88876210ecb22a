/** What the crawl engine guarantees, proved about the functions that give
    the meaning of `Crawler`'s methods. */
module CrawlerProperties {
  import opened Wrappers
  import opened Errors
  import opened Html
  import opened Models
  import opened Text
  import opened Seqs
  import opened BaseScraper
  import opened Crawler

  // ------------------------------------------------------------ _load_url

  /** Requests for `url` numbered `from` up to (not including) `to` all fail. */
  predicate AllFail(env: Env, url: string, from: nat, to: int)
  {
    forall n :: from <= n < to ==> env.fetch(url, n).None?
  }

  /** When every request fails, `_load_url` makes `max_retries + 1` requests
      (none when `max_retries` is negative), sleeps after each of them, the
      last included, and raises `MaxRetriesReached`. */
  lemma {:induction false} LoadAllFail(env: Env, url: string, retry: int, attempts: nat, sleeps: nat)
    requires retry >= 0
    requires AllFail(env, url, attempts, attempts + env.config.maxRetries + 1 - retry)
    ensures var tries := if retry > env.config.maxRetries then 0 else env.config.maxRetries + 1 - retry;
      Load(env, url, retry, attempts, sleeps) ==
      Loaded(Failure(MaxRetriesReached), attempts + tries, sleeps + tries)
    decreases env.config.maxRetries - retry
  {
    if retry <= env.config.maxRetries {
      assert env.fetch(url, attempts).None?;
      LoadAllFail(env, url, retry + 1, attempts + 1, sleeps + 1);
    }
  }

  /** When request `k` (counting from 0) is the first to succeed and
      `k <= max_retries`, `_load_url` returns its page after `k + 1` requests
      and `k` sleeps. */
  lemma {:induction false} LoadFirstSuccess(env: Env, url: string, attempts: nat, sleeps: nat, k: nat)
    requires k <= env.config.maxRetries
    requires AllFail(env, url, attempts, attempts + k)
    requires env.fetch(url, attempts + k).Some?
    ensures Load(env, url, 0, attempts, sleeps) ==
      Loaded(Success(env.fetch(url, attempts + k).value), attempts + k + 1, sleeps + k)
  {
    LoadSucceedsFrom(env, url, 0, attempts, sleeps, k);
  }

  lemma {:induction false} LoadSucceedsFrom(env: Env, url: string, retry: int, attempts: nat, sleeps: nat, k: nat)
    requires retry + k <= env.config.maxRetries
    requires AllFail(env, url, attempts, attempts + k)
    requires env.fetch(url, attempts + k).Some?
    ensures Load(env, url, retry, attempts, sleeps) ==
      Loaded(Success(env.fetch(url, attempts + k).value), attempts + k + 1, sleeps + k)
    decreases k
  {
    if k > 0 {
      assert env.fetch(url, attempts).None?;
      LoadSucceedsFrom(env, url, retry + 1, attempts + 1, sleeps + 1, k - 1);
    }
  }

  // ------------------------------------------------------- _choose_scraper

  /** The chosen scraper is the first registered one, in list order, whose
      key occurs in the lower-cased netloc. */
  lemma {:induction false} ChooseFirstMatch(scrapers: seq<Scraper>, general: Scraper, netloc: string, i: nat)
    requires i < |scrapers| && Matches(scrapers[i], netloc)
    requires forall k :: 0 <= k < i ==> !Matches(scrapers[k], netloc)
    ensures ChooseScraper(scrapers, general, netloc) == scrapers[i]
  {
    if i > 0 {
      assert !Matches(scrapers[0], netloc);
      ChooseFirstMatch(scrapers[1..], general, netloc, i - 1);
    }
  }

  /** Without a matching scraper, and in particular with an empty registry,
      the general scraper is chosen. */
  lemma {:induction false} ChooseDefault(scrapers: seq<Scraper>, general: Scraper, netloc: string)
    requires forall k :: 0 <= k < |scrapers| ==> !Matches(scrapers[k], netloc)
    ensures ChooseScraper(scrapers, general, netloc) == general
  {
    if scrapers != [] {
      assert !Matches(scrapers[0], netloc);
      ChooseDefault(scrapers[1..], general, netloc);
    }
  }

  /** A registered scraper whose class name is at most seven characters long
      has the empty key, which occurs in every netloc. */
  lemma ShortNameMatchesAll(s: Scraper, netloc: string)
    requires |s.typeName| <= 7
    ensures Matches(s, netloc)
  {
  }

  // ------------------------------------------------- _recursive_crawl_site

  /** Each newly recorded URL came with the article scraped from it: the
      URLs and articles appended are in step. */
  predicate Paired(newUrls: seq<string>, newArticles: seq<Article>)
  {
    |newUrls| == |newArticles| &&
    forall i :: 0 <= i < |newUrls| ==> newArticles[i].url == Some(newUrls[i])
  }

  /** How a crawl changes the state from `st` to `st'`: `_urls`, the
      articles and the visits are only appended to; every appended URL was
      absent when it was appended; the appended articles are the appended
      URLs' articles; requests and sleeps only increase. */
  ghost predicate Grows(st: State, st': State)
  {
    st.urls <= st'.urls && st.articles <= st'.articles && st.visits <= st'.visits &&
    st.attempts <= st'.attempts && st.sleeps <= st'.sleeps &&
    (forall i :: |st.urls| <= i < |st'.urls| ==> st'.urls[i] !in st'.urls[..i]) &&
    Paired(st'.urls[|st.urls|..], st'.articles[|st.articles|..])
  }

  lemma GrowsTransitive(s1: State, s2: State, s3: State)
    requires Grows(s1, s2) && Grows(s2, s3)
    ensures Grows(s1, s3)
  {
    var u1, u2, u3 := s1.urls, s2.urls, s3.urls;
    var a1, a2, a3 := s1.articles, s2.articles, s3.articles;
    assert u3[|u1|..] == u2[|u1|..] + u3[|u2|..];
    assert a3[|a1|..] == a2[|a1|..] + a3[|a2|..];
    assert forall i :: |u1| <= i < |u2| ==> u3[..i] == u2[..i];
  }

  lemma {:induction false} CrawlGrows(env: Env, st: State, url: string, source: string, maxDepth: int, depth: int)
    ensures Grows(st, Crawl(env, st, url, source, maxDepth, depth).state)
    decreases maxDepth - depth + 1, 0
  {
    if depth <= maxDepth {
      var scraped := Scrape(env, url, st.attempts, st.sleeps);
      var st1 := st.(attempts := scraped.attempts, sleeps := scraped.sleeps,
                     visits := st.visits + [Visit(url, depth)]);
      ScrapeCounts(env, url, st.attempts, st.sleeps);
      assert Grows(st, st1);
      if scraped.result.Success? {
        var article := scraped.result.value;
        var st2 := if url in st1.urls then st1
                   else st1.(urls := st1.urls + [url], articles := st1.articles + [article]);
        assert Grows(st1, st2) by {
          if url !in st1.urls {
            assert st2.urls[|st1.urls|..] == [url];
            assert st2.articles[|st1.articles|..] == [article];
            assert st2.urls[..|st1.urls|] == st1.urls;
          }
        }
        GrowsTransitive(st, st1, st2);
        CrawlLinksGrows(env, st2, article.netlocLinks, source, maxDepth, depth + 1);
        GrowsTransitive(st, st2, CrawlLinks(env, st2, article.netlocLinks, source, maxDepth, depth + 1));
      }
    }
  }

  lemma {:induction false} CrawlLinksGrows(env: Env, st: State, links: seq<string>, source: string, maxDepth: int, depth: int)
    ensures Grows(st, CrawlLinks(env, st, links, source, maxDepth, depth))
    decreases maxDepth - depth + 1, |links|
  {
    if links != [] {
      var st1 := if Contains(links[0], source)
                 then Crawl(env, st, links[0], source, maxDepth, depth).state
                 else st;
      if Contains(links[0], source) {
        CrawlGrows(env, st, links[0], source, maxDepth, depth);
      }
      CrawlLinksGrows(env, st1, links[1..], source, maxDepth, depth);
      GrowsTransitive(st, st1, CrawlLinks(env, st1, links[1..], source, maxDepth, depth));
    }
  }

  /** Loading and scraping a page only ever adds requests and sleeps. */
  lemma ScrapeCounts(env: Env, url: string, attempts: nat, sleeps: nat)
    ensures attempts <= Scrape(env, url, attempts, sleeps).attempts
    ensures sleeps <= Scrape(env, url, attempts, sleeps).sleeps
  {
    LoadCounts(env, url, 0, attempts, sleeps);
  }

  lemma {:induction false} LoadCounts(env: Env, url: string, retry: int, attempts: nat, sleeps: nat)
    ensures attempts <= Load(env, url, retry, attempts, sleeps).attempts
    ensures sleeps <= Load(env, url, retry, attempts, sleeps).sleeps
    decreases env.config.maxRetries - retry
  {
    if retry <= env.config.maxRetries && env.fetch(url, attempts).None? {
      LoadCounts(env, url, retry + 1, attempts + 1, sleeps + 1);
    }
  }

  /** A crawl keeps `_urls` free of duplicates, never records a URL it
      already held, and every article it adds carries a URL it newly
      recorded, in the same order. */
  lemma CrawlKeepsUrlsUnique(env: Env, st: State, url: string, source: string, maxDepth: int, depth: int)
    requires NoDuplicates(st.urls)
    ensures var st' := Crawl(env, st, url, source, maxDepth, depth).state;
      st.urls <= st'.urls && st.articles <= st'.articles &&
      NoDuplicates(st'.urls) &&
      (forall i :: |st.urls| <= i < |st'.urls| ==> st'.urls[i] !in st.urls) &&
      Paired(st'.urls[|st.urls|..], st'.articles[|st.articles|..])
  {
    CrawlGrows(env, st, url, source, maxDepth, depth);
    var st' := Crawl(env, st, url, source, maxDepth, depth).state;
    forall i, j | 0 <= i < j < |st'.urls| ensures st'.urls[i] != st'.urls[j] {
      if j >= |st.urls| {
        assert st'.urls[i] in st'.urls[..j];
      } else {
        assert st'.urls[i] == st.urls[i] && st'.urls[j] == st.urls[j];
      }
    }
    forall i | |st.urls| <= i < |st'.urls| ensures st'.urls[i] !in st.urls {
      assert st'.urls[..i][..|st.urls|] == st.urls;
    }
  }

  // ------------------------------------------------ depth and domain bounds

  /** Every visit in `vs` is at a depth from `lo` to `hi`. */
  predicate DepthsWithin(vs: seq<Visit>, lo: int, hi: int)
  {
    forall i :: 0 <= i < |vs| ==> lo <= vs[i].depth <= hi
  }

  /** Every visit in `vs` is of a URL containing `source`. */
  predicate InSource(vs: seq<Visit>, source: string)
  {
    forall i :: 0 <= i < |vs| ==> Contains(vs[i].url, source)
  }

  /** Every page a crawl fetches is fetched at a depth from `depth` to
      `max_depth`; the first is `url` itself at `depth`, and every other one
      is a link that contains the source netloc, fetched deeper than `depth`. */
  lemma {:induction false} CrawlVisits(env: Env, st: State, url: string, source: string, maxDepth: int, depth: int)
    ensures var st' := Crawl(env, st, url, source, maxDepth, depth).state;
      st.visits <= st'.visits &&
      DepthsWithin(st'.visits[|st.visits|..], depth, maxDepth) &&
      (depth <= maxDepth ==>
        |st'.visits| > |st.visits| && st'.visits[|st.visits|] == Visit(url, depth) &&
        DepthsWithin(st'.visits[|st.visits| + 1..], depth + 1, maxDepth) &&
        InSource(st'.visits[|st.visits| + 1..], source)) &&
      (depth > maxDepth ==> st'.visits == st.visits)
    decreases maxDepth - depth + 1, 0
  {
    var st' := Crawl(env, st, url, source, maxDepth, depth).state;
    if depth <= maxDepth {
      var scraped := Scrape(env, url, st.attempts, st.sleeps);
      var st1 := st.(attempts := scraped.attempts, sleeps := scraped.sleeps,
                     visits := st.visits + [Visit(url, depth)]);
      if scraped.result.Success? {
        var article := scraped.result.value;
        var st2 := if url in st1.urls then st1
                   else st1.(urls := st1.urls + [url], articles := st1.articles + [article]);
        CrawlLinksVisits(env, st2, article.netlocLinks, source, maxDepth, depth + 1);
      }
      VisitsHead(st.visits, st1.visits, st'.visits, Visit(url, depth), depth, maxDepth, source);
    }
  }

  /** The visits of one crawl call: its own visit `v`, then visits one level
      deeper or more. */
  lemma VisitsHead(a: seq<Visit>, b: seq<Visit>, c: seq<Visit>, v: Visit, lo: int, hi: int, source: string)
    requires b == a + [v] && b <= c && lo <= v.depth <= hi
    requires DepthsWithin(c[|b|..], lo + 1, hi) && InSource(c[|b|..], source)
    ensures a <= c && |c| > |a| && c[|a|] == v
    ensures DepthsWithin(c[|a|..], lo, hi)
    ensures DepthsWithin(c[|a| + 1..], lo + 1, hi) && InSource(c[|a| + 1..], source)
  {
    assert c[|a|..] == [v] + c[|b|..];
  }

  /** Bounds on the visits added by two consecutive steps combine. */
  lemma VisitsCompose(a: seq<Visit>, b: seq<Visit>, c: seq<Visit>, lo: int, hi: int, source: string)
    requires a <= b <= c
    requires DepthsWithin(b[|a|..], lo, hi) && InSource(b[|a|..], source)
    requires DepthsWithin(c[|b|..], lo, hi) && InSource(c[|b|..], source)
    ensures a <= c && DepthsWithin(c[|a|..], lo, hi) && InSource(c[|a|..], source)
  {
    assert c[|a|..] == b[|a|..] + c[|b|..];
  }

  /** A first visit that satisfies the bounds extends the bounds on the rest. */
  lemma VisitsFirst(a: seq<Visit>, b: seq<Visit>, lo: int, hi: int, source: string)
    requires |a| < |b| && a <= b
    requires lo <= b[|a|].depth <= hi && Contains(b[|a|].url, source)
    requires DepthsWithin(b[|a| + 1..], lo, hi) && InSource(b[|a| + 1..], source)
    ensures DepthsWithin(b[|a|..], lo, hi) && InSource(b[|a|..], source)
  {
    assert b[|a|..] == [b[|a|]] + b[|a| + 1..];
  }

  lemma {:induction false} CrawlLinksVisits(env: Env, st: State, links: seq<string>, source: string, maxDepth: int, depth: int)
    ensures var st' := CrawlLinks(env, st, links, source, maxDepth, depth);
      st.visits <= st'.visits &&
      DepthsWithin(st'.visits[|st.visits|..], depth, maxDepth) &&
      InSource(st'.visits[|st.visits|..], source)
    decreases maxDepth - depth + 1, |links|
  {
    if links != [] {
      if Contains(links[0], source) {
        var st1 := Crawl(env, st, links[0], source, maxDepth, depth).state;
        CrawlVisits(env, st, links[0], source, maxDepth, depth);
        if depth <= maxDepth {
          VisitsFirst(st.visits, st1.visits, depth, maxDepth, source);
        }
        CrawlLinksVisits(env, st1, links[1..], source, maxDepth, depth);
        var st' := CrawlLinks(env, st1, links[1..], source, maxDepth, depth);
        VisitsCompose(st.visits, st1.visits, st'.visits, depth, maxDepth, source);
      } else {
        CrawlLinksVisits(env, st, links[1..], source, maxDepth, depth);
      }
    }
  }

  /** Every visit in `vs` at depth `d` is of one of `links`. */
  predicate VisitsAtAreLinks(vs: seq<Visit>, d: int, links: seq<string>)
  {
    forall i :: 0 <= i < |vs| && vs[i].depth == d ==> vs[i].url in links
  }

  /** The link loop at `depth` visits at that depth only the loop's own
      links: deeper recursion never comes back to `depth`. */
  lemma {:induction false} CrawlLinksOnly(env: Env, st: State, links: seq<string>, source: string, maxDepth: int, depth: int)
    ensures var st' := CrawlLinks(env, st, links, source, maxDepth, depth);
      st.visits <= st'.visits && VisitsAtAreLinks(st'.visits[|st.visits|..], depth, links)
    decreases |links|
  {
    CrawlLinksVisits(env, st, links, source, maxDepth, depth);
    if links != [] {
      var n := |st.visits|;
      var rest := links[1..];
      assert forall l :: l in rest ==> l in links;
      if Contains(links[0], source) {
        var st1 := Crawl(env, st, links[0], source, maxDepth, depth).state;
        CrawlVisits(env, st, links[0], source, maxDepth, depth);
        CrawlLinksOnly(env, st1, rest, source, maxDepth, depth);
        var st' := CrawlLinks(env, st1, rest, source, maxDepth, depth);
        var m := |st1.visits|;
        forall i | n <= i < |st'.visits| && st'.visits[i].depth == depth
          ensures st'.visits[i].url in links
        {
          if i >= m {
            assert st'.visits[m..][i - m] == st'.visits[i];
          } else {
            assert i == n && st'.visits[i] == st1.visits[n];
          }
        }
        assert forall i :: 0 <= i < |st'.visits[n..]| ==> st'.visits[n..][i] == st'.visits[n + i];
      } else {
        CrawlLinksOnly(env, st, rest, source, maxDepth, depth);
      }
    }
  }

  /** A scraped page's crawl recurses only into its own netloc links that
      contain the source netloc: every visit one level deeper is of such a
      link. With `CrawlFollowsLinks`, the visits one level deeper are
      exactly those links. */
  lemma CrawlFollowsOnlyLinks(env: Env, st: State, url: string, source: string, maxDepth: int, depth: int)
    requires depth <= maxDepth
    requires Scrape(env, url, st.attempts, st.sleeps).result.Success?
    ensures var st' := Crawl(env, st, url, source, maxDepth, depth).state;
      var links := Scrape(env, url, st.attempts, st.sleeps).result.value.netlocLinks;
      |st'.visits| > |st.visits| &&
      VisitsAtAreLinks(st'.visits[|st.visits| + 1..], depth + 1, links) &&
      InSource(st'.visits[|st.visits| + 1..], source)
  {
    var scraped := Scrape(env, url, st.attempts, st.sleeps);
    var article := scraped.result.value;
    var st1 := st.(attempts := scraped.attempts, sleeps := scraped.sleeps,
                   visits := st.visits + [Visit(url, depth)]);
    var st2 := if url in st1.urls then st1
               else st1.(urls := st1.urls + [url], articles := st1.articles + [article]);
    CrawlVisits(env, st, url, source, maxDepth, depth);
    CrawlLinksOnly(env, st2, article.netlocLinks, source, maxDepth, depth + 1);
    assert |st2.visits| == |st.visits| + 1;
  }

  /** Links are followed past the depth limit never: a link loop at a depth
      beyond `max_depth` changes nothing. */
  lemma {:induction false} CrawlLinksTooDeep(env: Env, st: State, links: seq<string>, source: string, maxDepth: int, depth: int)
    requires depth > maxDepth
    ensures CrawlLinks(env, st, links, source, maxDepth, depth) == st
    decreases |links|
  {
    if links != [] {
      CrawlLinksTooDeep(env, st, links[1..], source, maxDepth, depth);
    }
  }

  /** At the depth limit (for `crawl_site(seed, max_depth=0)`, the seed) a
      crawl fetches only `url`, follows no link, and adds at most the one
      article scraped from `url`. */
  lemma CrawlAtMaxDepth(env: Env, st: State, url: string, source: string, depth: int)
    ensures var st' := Crawl(env, st, url, source, depth, depth).state;
      st'.visits == st.visits + [Visit(url, depth)] &&
      (st'.urls == st.urls || st'.urls == st.urls + [url]) &&
      |st'.articles| <= |st.articles| + 1
  {
    var scraped := Scrape(env, url, st.attempts, st.sleeps);
    if scraped.result.Success? {
      var article := scraped.result.value;
      var st1 := st.(attempts := scraped.attempts, sleeps := scraped.sleeps,
                     visits := st.visits + [Visit(url, depth)]);
      var st2 := if url in st1.urls then st1
                 else st1.(urls := st1.urls + [url], articles := st1.articles + [article]);
      CrawlLinksTooDeep(env, st2, article.netlocLinks, source, depth, depth + 1);
    }
  }

  /** Beyond the depth limit a call returns `None` and changes nothing: no
      request, no URL, no article. */
  lemma CrawlTooDeep(env: Env, st: State, url: string, source: string, maxDepth: int, depth: int)
    requires depth > maxDepth
    ensures Crawl(env, st, url, source, maxDepth, depth) == Crawled(st, false)
  {
  }

  /** A page that cannot be loaded or scraped ends its branch: the call
      returns `None`, records no URL and no article, and follows no link. */
  lemma CrawlFailureContained(env: Env, st: State, url: string, source: string, maxDepth: int, depth: int)
    requires depth <= maxDepth
    requires Scrape(env, url, st.attempts, st.sleeps).result.Failure?
    ensures var c := Crawl(env, st, url, source, maxDepth, depth);
      !c.returned && c.state.urls == st.urls && c.state.articles == st.articles &&
      c.state.visits == st.visits + [Visit(url, depth)]
  {
  }

  /** Every link of a scraped page that contains the source netloc is
      visited one level deeper, whether or not the page's URL was already in
      `_urls`. */
  lemma CrawlFollowsLinks(env: Env, st: State, url: string, source: string, maxDepth: int, depth: int, link: string)
    requires depth < maxDepth
    requires Scrape(env, url, st.attempts, st.sleeps).result.Success?
    requires link in Scrape(env, url, st.attempts, st.sleeps).result.value.netlocLinks
    requires Contains(link, source)
    ensures Visit(link, depth + 1) in Crawl(env, st, url, source, maxDepth, depth).state.visits
  {
    var scraped := Scrape(env, url, st.attempts, st.sleeps);
    var article := scraped.result.value;
    var st1 := st.(attempts := scraped.attempts, sleeps := scraped.sleeps,
                   visits := st.visits + [Visit(url, depth)]);
    var st2 := if url in st1.urls then st1
               else st1.(urls := st1.urls + [url], articles := st1.articles + [article]);
    CrawlLinksVisitsEach(env, st2, article.netlocLinks, source, maxDepth, depth + 1, link);
  }

  lemma {:induction false} CrawlLinksVisitsEach(env: Env, st: State, links: seq<string>, source: string, maxDepth: int, depth: int, link: string)
    requires depth <= maxDepth
    requires link in links && Contains(link, source)
    ensures Visit(link, depth) in CrawlLinks(env, st, links, source, maxDepth, depth).visits
    decreases |links|
  {
    var st1 := if Contains(links[0], source)
               then Crawl(env, st, links[0], source, maxDepth, depth).state
               else st;
    var st' := CrawlLinks(env, st1, links[1..], source, maxDepth, depth);
    if links[0] == link {
      CrawlVisits(env, st, link, source, maxDepth, depth);
      CrawlLinksVisits(env, st1, links[1..], source, maxDepth, depth);
      assert st'.visits[|st.visits|] == Visit(link, depth);
    } else {
      CrawlLinksVisitsEach(env, st1, links[1..], source, maxDepth, depth, link);
    }
  }
}
