/** `Crawler` (grawt/crawler.py): fetching with bounded retry, scraper
    selection, and the depth-bounded recursive crawl.

    The network is an oracle `fetch(url, n)` giving the page the `n`-th
    request of the crawler receives (`None` when `requests.get` raises);
    sleeps are counted, not timed. Module-level functions give the meaning of
    each operation; the class's methods do the work step by step and are
    proved to agree with them. */
module Crawler {
  import opened Wrappers
  import opened Errors
  import opened Html
  import opened Models
  import opened Text
  import opened Urls
  import opened BaseScraper
  import opened GeneralScraper

  /** The network: what request number `n` for `url` receives. */
  type Fetcher = (string, nat) -> Option<Document>

  /** The configuration entries the crawl reads. */
  datatype Config = Config(maxRetries: int, mainTextMinLength: Option<int>)

  /** Everything a crawler holds that a crawl does not change. */
  datatype Env = Env(config: Config, general: Scraper, scrapers: seq<Scraper>, fetch: Fetcher)

  /** `self._config.get("main_text_min_length", 150)` */
  function MinLength(config: Config): int
  {
    match config.mainTextMinLength
    case Some(n) => n
    case None => 150
  }

  // ------------------------------------------------------------ _load_url

  datatype Loaded = Loaded(result: Result<Document, Error>, attempts: nat, sleeps: nat)

  /** `_load_url(url, retry)` entered after `attempts` requests and `sleeps`
      sleeps: each try with `retry <= max_retries` makes one request; a failed
      one sleeps and tries again with `retry + 1`. */
  function Load(env: Env, url: string, retry: int, attempts: nat, sleeps: nat): Loaded
    decreases env.config.maxRetries - retry
  {
    if retry > env.config.maxRetries then Loaded(Failure(MaxRetriesReached), attempts, sleeps)
    else match env.fetch(url, attempts)
      case Some(page) => Loaded(Success(page), attempts + 1, sleeps)
      case None => Load(env, url, retry + 1, attempts + 1, sleeps + 1)
  }

  // ------------------------------------------------------- _choose_scraper

  /** `type(scraper).__name__.lower()[:-7]`: the class name without its
      `Scraper` suffix. */
  function ScraperKey(s: Scraper): string
  {
    DropLast(Lower(s.typeName), 7)
  }

  predicate Matches(s: Scraper, netloc: string)
  {
    Contains(Lower(netloc), ScraperKey(s))
  }

  /** `_choose_scraper(netloc)`: the first registered scraper whose key occurs
      in the netloc, else the general scraper. */
  function ChooseScraper(scrapers: seq<Scraper>, general: Scraper, netloc: string): (r: Scraper)
    ensures r == general || (r in scrapers && Matches(r, netloc))
  {
    if scrapers == [] then general
    else if Matches(scrapers[0], netloc) then scrapers[0]
    else ChooseScraper(scrapers[1..], general, netloc)
  }

  // -------------------------------------------------------- _single_scrape

  datatype Scraped = Scraped(result: Result<Article, Error>, attempts: nat, sleeps: nat)

  /** `_single_scrape(url)`: load, pick the scraper by the URL's netloc,
      scrape, then set the record's URL. */
  function Scrape(env: Env, url: string, attempts: nat, sleeps: nat): Scraped
  {
    var loaded := Load(env, url, 0, attempts, sleeps);
    match loaded.result
    case Failure(e) => Scraped(Failure(e), loaded.attempts, loaded.sleeps)
    case Success(soup) =>
      var scraper := ChooseScraper(env.scrapers, env.general, Netloc(url));
      match ScrapeArticle(scraper, soup, MinLength(env.config))
      case Failure(e) => Scraped(Failure(e), loaded.attempts, loaded.sleeps)
      case Success(a) => Scraped(Success(a.(url := Some(url))), loaded.attempts, loaded.sleeps)
  }

  // ------------------------------------------------- _recursive_crawl_site

  /** A call of `_single_scrape` during a crawl, with the depth it ran at. */
  datatype Visit = Visit(url: string, depth: int)

  /** What a crawl changes: the seen-URL list `_urls`, the accumulator's
      articles (in the order they were added), the request and sleep counts,
      and the visits made. */
  datatype State = State(
    urls: seq<string>,
    articles: seq<Article>,
    attempts: nat,
    sleeps: nat,
    visits: seq<Visit>)

  /** The state after a call, and whether it returned the accumulator
      (`true`) or `None` (`false`). */
  datatype Crawled = Crawled(state: State, returned: bool)

  /** `_recursive_crawl_site(url, netloc_source, max_depth, depth)`. */
  function Crawl(env: Env, st: State, url: string, source: string, maxDepth: int, depth: int): Crawled
    decreases maxDepth - depth + 1, 0
  {
    if depth > maxDepth then Crawled(st, false)
    else
      var scraped := Scrape(env, url, st.attempts, st.sleeps);
      var st1 := st.(attempts := scraped.attempts, sleeps := scraped.sleeps,
                     visits := st.visits + [Visit(url, depth)]);
      match scraped.result
      case Failure(_) => Crawled(st1, false)
      case Success(article) =>
        var st2 := if url in st1.urls then st1
                   else st1.(urls := st1.urls + [url], articles := st1.articles + [article]);
        Crawled(CrawlLinks(env, st2, article.netlocLinks, source, maxDepth, depth + 1), true)
  }

  /** The loop over `article.netloc_links`: links that contain the source
      netloc are crawled at `depth`, in order; the others are skipped. */
  function CrawlLinks(env: Env, st: State, links: seq<string>, source: string, maxDepth: int, depth: int): State
    decreases maxDepth - depth + 1, |links|
  {
    if links == [] then st
    else
      var st1 := if Contains(links[0], source)
                 then Crawl(env, st, links[0], source, maxDepth, depth).state
                 else st;
      CrawlLinks(env, st1, links[1..], source, maxDepth, depth)
  }

  // ---------------------------------------------------------------- objects

  /** The `scraped_articles` set. `ScrapedArticle` has no `__eq__` or
      `__hash__`, so every added record is a new member: the set is kept as
      the sequence of records in the order they were added. */
  class Accumulator {
    var articles: seq<Article>

    constructor ()
      ensures articles == []
    {
      articles := [];
    }

    /** `scraped_articles.add(article)` */
    method Add(article: Article)
      modifies this
      ensures articles == old(articles) + [article]
    {
      articles := articles + [article];
    }
  }

  class Crawler {
    const env: Env
    /** `self._urls` */
    var urls: seq<string>
    /** the contents of the URL file */
    var urlsFile: seq<string>
    /** requests made, sleeps taken and URL-file writes so far */
    var attempts: nat
    var sleeps: nat
    var writes: nat
    ghost var visits: seq<Visit>

    /** `Crawler.__init__`, given the configuration, the date parser and
        clock the general scraper uses, the scraper registry, the network,
        and the URL list read from the URL file. */
    constructor (config: Config, parse: string -> Option<int>, now: int,
                 scrapers: seq<Scraper>, fetch: Fetcher, stored: seq<string>)
      ensures env == Env(config, General(parse, now), scrapers, fetch)
      ensures urls == stored && urlsFile == stored
      ensures attempts == 0 && sleeps == 0 && writes == 0 && visits == []
    {
      env := Env(config, General(parse, now), scrapers, fetch);
      urls := stored;
      urlsFile := stored;
      attempts, sleeps, writes := 0, 0, 0;
      visits := [];
    }

    ghost function Snapshot(acc: Accumulator): State
      reads this, acc
    {
      State(urls, acc.articles, attempts, sleeps, visits)
    }

    /** `_write_urls_file`: the file now holds `_urls`. */
    method WriteUrlsFile()
      modifies this`urlsFile, this`writes
      ensures urlsFile == urls && writes == old(writes) + 1
    {
      urlsFile := urls;
      writes := writes + 1;
    }

    /** `_load_url(url)`; the recursion on `retry` is a loop. */
    method LoadUrl(url: string) returns (r: Result<Document, Error>)
      modifies this`attempts, this`sleeps
      ensures Loaded(r, attempts, sleeps) == Load(env, url, 0, old(attempts), old(sleeps))
    {
      var retry := 0;
      while retry <= env.config.maxRetries
        invariant 0 <= retry
        invariant Load(env, url, retry, attempts, sleeps) == Load(env, url, 0, old(attempts), old(sleeps))
        decreases env.config.maxRetries - retry
      {
        var response := env.fetch(url, attempts);
        attempts := attempts + 1;
        if response.Some? {
          return Success(response.value);
        }
        retry := retry + 1;
        sleeps := sleeps + 1;
      }
      r := Failure(MaxRetriesReached);
    }

    /** `_single_scrape(url)`. */
    method SingleScrape(url: string) returns (r: Result<Article, Error>)
      modifies this`attempts, this`sleeps
      ensures Scraped(r, attempts, sleeps) == Scrape(env, url, old(attempts), old(sleeps))
    {
      var rawHtml := LoadUrl(url);
      if rawHtml.Failure? {
        return Failure(rawHtml.error);
      }
      var netloc := Netloc(url);
      var scraper := ChooseScraper(env.scrapers, env.general, netloc);
      var scraped := ScrapeArticle(scraper, rawHtml.value, MinLength(env.config));
      if scraped.Failure? {
        return Failure(scraped.error);
      }
      r := Success(scraped.value.(url := Some(url)));
    }

    /** `_recursive_crawl_site(url, netloc_source, max_depth, depth,
        scraped_articles)`; returns the accumulator or null for `None`. */
    method RecursiveCrawlSite(url: string, source: string, maxDepth: int, depth: int, acc: Accumulator)
      returns (r: Accumulator?)
      modifies this`urls, this`attempts, this`sleeps, this`visits, acc
      ensures Snapshot(acc) == Crawl(env, old(Snapshot(acc)), url, source, maxDepth, depth).state
      ensures r == if Crawl(env, old(Snapshot(acc)), url, source, maxDepth, depth).returned then acc else null
      decreases maxDepth - depth + 1
    {
      if depth > maxDepth {
        return null;
      }
      visits := visits + [Visit(url, depth)];
      var scraped := SingleScrape(url);
      if scraped.Failure? {
        return null;
      }
      var article := scraped.value;
      if url !in urls {
        urls := urls + [url];
        acc.Add(article);
      }
      ghost var start := Snapshot(acc);
      var links := article.netlocLinks;
      for i := 0 to |links|
        invariant CrawlLinks(env, Snapshot(acc), links[i..], source, maxDepth, depth + 1) ==
                  CrawlLinks(env, start, links, source, maxDepth, depth + 1)
      {
        assert links[i..][1..] == links[i + 1..];
        if !Contains(links[i], source) {
          continue;
        }
        var _ := RecursiveCrawlSite(links[i], source, maxDepth, depth + 1, acc);
      }
      r := acc;
    }

    /** `crawl_site(url, max_depth, depth, scraped_articles)`: crawl from
        `url` with its netloc as the source, write the URL file once, and
        return the articles, or nothing when the first call gave `None`. */
    method CrawlSite(url: string, maxDepth: int, depth: int, acc: Accumulator)
      returns (result: seq<Article>)
      modifies this`urls, this`attempts, this`sleeps, this`visits, this`urlsFile, this`writes, acc
      ensures var c := Crawl(env, old(Snapshot(acc)), url, Netloc(url), maxDepth, depth);
        Snapshot(acc) == c.state && result == (if c.returned then acc.articles else [])
      ensures writes == old(writes) + 1 && urlsFile == urls
    {
      var source := Netloc(url);
      var scraped := RecursiveCrawlSite(url, source, maxDepth, depth, acc);
      WriteUrlsFile();
      if scraped == null {
        result := [];
      } else {
        result := scraped.articles;
      }
    }
  }
}
