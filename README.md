# grawt crawl engine in Dafny

This project models the crawl engine of `grawt`, a small news-article
crawler. The crawl engine has four parts:

- `Crawler` fetches a page with bounded retry. It picks a site-specific
  scraper by the page's netloc, or falls back to `GeneralScraper`. It
  then crawls the site recursively up to a maximum depth, following only
  links that contain the seed's netloc. Along the way it records newly
  seen URLs in `_urls` and collects the scraped articles in an
  accumulator.
- `BaseScraper` is the extraction contract: five extractors and the
  `scrape_article` composition that builds a `ScrapedArticle` from them.
- `GeneralScraper` is the default extractor. It takes the headline from
  the first heading of the lowest level present, or else from the title.
  It builds the main text from the paragraphs that are long enough. The
  date is the earliest parsed `<time>` value, with "now" as the fallback.
  It also collects the hrefs and the subset of them that carry a netloc.
- `ScrapedArticle` is the article record, with `from_dict` (and the
  `to_dict` that returns nothing).

Modules:

| module | file | contents |
|---|---|---|
| `Wrappers` | `wrappers.dfy` | `Option`, `Result` |
| `Errors` | `errors.dfy` | the exceptions the core can raise, as values |
| `Seqs` | `seqs.dfy` | order-preserving `Filter`, subsequences |
| `Text` | `text.dfy` | ASCII `lower()`, `in` on strings, `s[:-n]` |
| `Urls` | `urls.dfy` | the netloc of a URL, following section 3 of RFC 3986 |
| `Html` | `html.dfy` | the parsed page as plain data |
| `Models` | `models.dfy` | `ScrapedArticle`, `from_dict`, `to_dict` |
| `BaseScraper` | `base_scraper.dfy` | the extraction contract and `scrape_article` |
| `GeneralScraper` | `general_scraper.dfy` | the five default extractors |
| `Crawler` | `crawler.dfy` | meaning functions and the `Crawler` class |
| `CrawlerProperties` | `crawler_properties.dfy` | what a crawl guarantees |

The extractors and the crawler are imperative in the source. Each
extractor is a method whose loop is proved equal to a recursive
specification function, for example `GeneralScraper.ExtractHeadline` and
`GeneralScraper.Headline`. The lemmas then state what each function
means.

`Crawler` is a class with the mutable state of the source: `_urls`, the
URL file contents, and counters for requests, sleeps and file writes.
Its methods are proved to leave the state that the functions `Load`,
`Scrape`, `Crawl` and `CrawlLinks` describe.

The accumulator `scraped_articles` is an explicit `Accumulator` object
that the caller passes in. It is the default `set()` that all calls in
the source share.

The network is a parameter `fetch(url, n)`. It gives the parsed page
that the crawler's `n`-th request receives, or `None` when
`requests.get` raises.

Some behaviours of the code are easy to misread; the model follows the
code:

- A URL already in `_urls` is not a dead end. Its links are still followed
  (`CrawlerProperties.CrawlFollowsLinks`).
- When every request fails, `_load_url` sleeps after the last failed
  request too, not only between requests. It then raises
  `MaxRetriesReached` with a fixed message that carries neither the URL
  nor the attempt count
  (`CrawlerProperties.LoadAllFail`).
- `ScrapedArticle` has no equality or hash of its own. Every added record
  is therefore a new member of the accumulator, even when its URL equals
  that of a record already there, and the accumulator is a sequence.
- `to_dict` returns nothing (see Findings).

## Model

| member | source | states |
|---|---|---|
| Crawler.Crawler.constructor | grawt/crawler.py:24-32 | a new crawler has the general scraper, the given registry, and `_urls` equal to the stored URL list; no request, sleep or write has happened yet |
| Crawler.Crawler.WriteUrlsFile | grawt/crawler.py:50-54 | afterwards the URL file holds exactly `_urls`, and one more write has happened |
| Crawler.Crawler.LoadUrl | grawt/crawler.py:57-79 | the retry loop returns the page, or `MaxRetriesReached`, and leaves the request and sleep counts that the recursive `_load_url` meaning gives |
| CrawlerProperties.LoadAllFail | grawt/crawler.py:70-79 | when every request fails, `_load_url` makes `max_retries + 1 - retry` requests and as many sleeps (none if `retry > max_retries`), then fails with `MaxRetriesReached` |
| CrawlerProperties.LoadFirstSuccess | grawt/crawler.py:73-79 | if requests 0..k-1 fail and request k succeeds with `k <= max_retries`, the result is that page after k+1 requests and exactly k sleeps |
| CrawlerProperties.LoadSucceedsFrom | grawt/crawler.py:70-79 | the same, starting from any `retry` with `retry + k <= max_retries` |
| CrawlerProperties.LoadCounts | grawt/crawler.py:73-79 | loading never decreases the request or sleep counts |
| Crawler.ChooseScraper | grawt/crawler.py:81-93 | the meaning of `_choose_scraper`: the result is the general scraper or a registered scraper whose key occurs in the netloc; `ChooseFirstMatch` and `ChooseDefault` say which |
| CrawlerProperties.ChooseFirstMatch | grawt/crawler.py:90-92 | the chosen scraper is the first in registry order whose lower-cased class name minus its last 7 characters occurs in the lower-cased netloc |
| CrawlerProperties.ChooseDefault | grawt/crawler.py:90-93 | when no registered scraper matches, including when the registry is empty, the general scraper is chosen |
| CrawlerProperties.ShortNameMatchesAll | grawt/crawler.py:91 | a scraper class whose name has at most 7 characters has an empty key, so it matches every netloc |
| Text.Lower | grawt/crawler.py:91 | `lower()` keeps the length, maps each ASCII capital to the small letter at the same place in the alphabet, and leaves every other character alone |
| Text.DropLast | grawt/crawler.py:91 | for a positive `n`, `s[:-n]` is the prefix of `s` that is n characters shorter, or empty when `s` has at most n characters |
| Text.ContainsAt | grawt/crawler.py:154 | `needle in hay` holds exactly when `needle` occurs in `hay` at some position |
| Crawler.Crawler.SingleScrape | grawt/crawler.py:95-110 | load the page, choose the scraper by the URL's netloc, scrape with `main_text_min_length` (150 when unset), and set the record's URL; any error from loading or scraping is the result, and the request and sleep counts are those of loading |
| CrawlerProperties.ScrapeCounts | grawt/crawler.py:104 | a single scrape never decreases the request or sleep counts |
| Crawler.Accumulator.constructor | grawt/crawler.py:118 | a fresh accumulator holds no articles |
| Crawler.Accumulator.Add | grawt/crawler.py:145 | adding appends the article, so it is a new member even when an equal record is already there |
| Crawler.Crawler.RecursiveCrawlSite | grawt/crawler.py:112-163 | the recursive method leaves `_urls`, the accumulator, the counts and the visit trace as the crawl meaning gives; it returns the accumulator, or null for `None` when the call is too deep or its page failed |
| Crawler.Crawler.CrawlSite | grawt/crawler.py:165-195 | crawl from `url` with its netloc as the source, then write the URL file exactly once; return `[]` when the traversal gave `None`, and the accumulator's articles otherwise |
| CrawlerProperties.CrawlTooDeep | grawt/crawler.py:135-136 | when `depth > max_depth` the call returns `None` and changes nothing: no request, no URL, no article, no visit |
| CrawlerProperties.CrawlLinksTooDeep | grawt/crawler.py:151-162 | a link loop beyond the depth limit changes nothing |
| CrawlerProperties.CrawlAtMaxDepth | grawt/crawler.py:135-162 | at the depth limit only `url` itself is fetched, no link is followed, and at most one URL and one article are added |
| CrawlerProperties.CrawlFailureContained | grawt/crawler.py:139-149 | when loading or scraping fails, the call returns `None` after that one visit, leaving `_urls` and the accumulator as they were |
| CrawlerProperties.CrawlGrows | grawt/crawler.py:139-162 | a crawl only appends to `_urls`, the articles and the visits; each appended URL was absent when it was appended; the appended articles are, in order, those of the appended URLs; counts never decrease |
| CrawlerProperties.CrawlLinksGrows | grawt/crawler.py:151-162 | the same for the loop over a page's links |
| CrawlerProperties.CrawlKeepsUrlsUnique | grawt/crawler.py:141-145 | a duplicate-free `_urls` stays duplicate-free, no URL already held is appended again, and every added article carries a URL newly recorded by this crawl |
| CrawlerProperties.CrawlVisits | grawt/crawler.py:135-162 | every page a crawl fetches is fetched at a depth between `depth` and `max_depth`; the first is `url` itself at `depth`, and every later one contains the source netloc and is fetched deeper than `depth` |
| CrawlerProperties.CrawlLinksVisits | grawt/crawler.py:151-162 | the link loop visits only URLs containing the source netloc, at depths between `depth` and `max_depth` |
| CrawlerProperties.CrawlFollowsLinks | grawt/crawler.py:141-162 | below the depth limit, every link of a scraped page that contains the source netloc is visited one level deeper, whether or not the page's URL was already in `_urls` |
| CrawlerProperties.CrawlLinksOnly | grawt/crawler.py:151-162 | the link loop at a given depth visits, at that depth, only its own links; deeper recursion never returns to that depth |
| CrawlerProperties.CrawlFollowsOnlyLinks | grawt/crawler.py:151-162 | after a page is scraped, every visit one level deeper is of one of the page's netloc links and contains the source netloc; with `CrawlFollowsLinks`, the visits one level deeper are exactly those links |
| CrawlerProperties.CrawlLinksVisitsEach | grawt/crawler.py:151-162 | within the depth limit, the link loop visits every link that contains the source netloc |
| BaseScraper.ScrapeArticle | grawt/scraper/base_scraper.py:76-91 | the record is built from one result of each of the five extractors, in order, with `main_text_min_length` passed to the main-text extractor unchanged and the URL left unset; it succeeds exactly when every extractor succeeds, and otherwise fails with the first failing extractor's error |
| GeneralScraper.General | grawt/scraper/general_scraper.py:10-13 | the general scraper is a `Scraper` whose class name is `GeneralScraper` |
| GeneralScraper.LevelHeadings | grawt/scraper/general_scraper.py:31 | the headings of one level number at most all the headings |
| GeneralScraper.ExtractHeadline | grawt/scraper/general_scraper.py:29-36 | the loop over levels 1 to 6 gives the headline that the headline meaning gives |
| GeneralScraper.HeadlineIsFirstOfLowestLevel | grawt/scraper/general_scraper.py:29-34 | the headline is the text of the first heading among those of the lowest level present |
| GeneralScraper.HeadlineSource | grawt/scraper/general_scraper.py:29-36 | with any heading the headline comes from a heading; with none it is the title; it fails (`NoTitle`) exactly when there is neither heading nor title |
| GeneralScraper.Lines | grawt/scraper/general_scraper.py:55 | each paragraph adds its text plus a newline, so the text is at least as long as the number of paragraphs |
| GeneralScraper.ExtractMainText | grawt/scraper/general_scraper.py:51-56 | the loop gives the main-text meaning: the in-order concatenation of `text + "\n"` over the paragraphs with at least `min_chars` characters |
| GeneralScraper.MainTextEmpty | grawt/scraper/general_scraper.py:51-56 | the main text is empty exactly when no paragraph is long enough |
| GeneralScraper.MainTextKeepsAll | grawt/scraper/general_scraper.py:51-56 | with `min_chars <= 0` every paragraph is included |
| GeneralScraper.MainTextParagraphs | grawt/scraper/general_scraper.py:53-55 | a paragraph is kept exactly when it is one of the page's paragraphs and is at least `min_chars` long |
| GeneralScraper.MainTextExample | grawt/scraper/general_scraper.py:51-56 | with minimum 10, of "short" and "a sufficiently long paragraph" only the second is kept |
| GeneralScraper.ExtractDate | grawt/scraper/general_scraper.py:69-80 | the loop gives the date meaning: the earliest parsed time, `now` when nothing parses, and a failure when a `<time>` has no `datetime` attribute |
| GeneralScraper.Earliest | grawt/scraper/general_scraper.py:78 | `min` of a non-empty list is one of its members and no larger than any of them |
| GeneralScraper.ParsedFailure | grawt/scraper/general_scraper.py:70-76 | collecting the timestamps fails exactly when some `<time>` has no `datetime` attribute |
| GeneralScraper.ParsedValues | grawt/scraper/general_scraper.py:70-76 | otherwise the collected timestamps are exactly the values that parse; values that do not parse are skipped |
| GeneralScraper.DateFailure | grawt/scraper/general_scraper.py:69-80 | the date extractor fails, with `MissingDatetime`, exactly when some `<time>` has no `datetime` attribute |
| GeneralScraper.DateIsEarliest | grawt/scraper/general_scraper.py:69-78 | if any value parses, the date is one of the parsed values and no later than any of them |
| GeneralScraper.DateFallsBackToNow | grawt/scraper/general_scraper.py:77-80 | if no value parses, including when there is no `<time>`, the date is `now` |
| GeneralScraper.Hrefs | grawt/scraper/general_scraper.py:91-96 | there are at most as many hrefs as anchors |
| GeneralScraper.ExtractAllHrefs | grawt/scraper/general_scraper.py:91-96 | the loop gives the hrefs meaning: the hrefs of the anchors that have one, in order |
| GeneralScraper.HrefsMembers | grawt/scraper/general_scraper.py:92-95 | a string is among the hrefs exactly when some anchor has it as its href |
| GeneralScraper.HrefsAppend | grawt/scraper/general_scraper.py:91-96 | the hrefs of two runs of anchors are the first run's hrefs followed by the second's, so order is kept |
| GeneralScraper.HrefsKeepsAll | grawt/scraper/general_scraper.py:91-96 | when every anchor has an href, the hrefs are those of the anchors one for one, duplicates included |
| GeneralScraper.ExtractNetlocLinks | grawt/scraper/general_scraper.py:109-114 | the loop over the hrefs gives the netloc-links meaning |
| GeneralScraper.NetlocLinksFilter | grawt/scraper/general_scraper.py:109-114 | the netloc links are an order-preserving subsequence of the hrefs; a string is among them exactly when it is an href with a netloc; filtering them again changes nothing |
| GeneralScraper.GeneralScrape | grawt/scraper/base_scraper.py:85-91 | the general scraper yields a record exactly when the page has a heading or a title and every `<time>` has a `datetime` attribute; the record has no URL, its main text is the filtered paragraphs, and its netloc links are a subsequence of its hrefs, each with a netloc |
| Urls.Netloc | grawt/crawler.py:105 | `urlparse(u).netloc`: after the scheme, the longest run of characters other than `/`, `?` and `#` that follows a leading `//`, and empty without a leading `//` |
| Urls.HasNetlocRule | grawt/scraper/general_scraper.py:111-112 | an href has a netloc exactly when, after its scheme, it starts with `//` followed by a non-empty authority |
| Urls.AbsoluteUrlNetloc | grawt/scraper/general_scraper.py:111-112 | for `scheme://host/path`, the netloc is `host` |
| Urls.RelativeHasNoNetloc | grawt/scraper/general_scraper.py:111-112 | a reference without a scheme (a relative reference such as `page.html`, `foo/bar` or `/x`) that does not start with `//` has no netloc |
| Models.TextAt | grawt/models.py:18-19 | reading a text key succeeds exactly when the key is present with a text value; a missing key is a `KeyError` for that key |
| Models.StampAt | grawt/models.py:20 | the same for the timestamp key |
| Models.LinksAt | grawt/models.py:21-22 | the same for the link-list keys |
| Models.FromDict | grawt/models.py:16-23 | the record is built from keys `headline`, `maintext`, `datetime_`, `hrefs` and `netloc_links`, in that order, and has no URL; it succeeds exactly when all five are present with values of the right kind; when the keys before it are present and well-typed, a missing key is a `KeyError` for that key |
| Models.FromDictIgnores | grawt/models.py:16-23 | the keys `main_text` and `url` play no part |
| Models.ToDict | grawt/models.py:12-13 | `to_dict` yields `None` for every record |
| Models.ToDictHasNoRoundTrip | grawt/models.py:12-13 | `to_dict` of no record is a dictionary, so `from_dict(a.to_dict())` never rebuilds an article |
| Models.ToDictFixed | grawt/models.py:12-13 | the intended `to_dict` maps the main text under `maintext` and has `url` exactly when the record has a URL |
| Models.DictRoundTrip | grawt/models.py:12-23 | `from_dict` of the intended `to_dict` gives back the record, without its URL |

## Left out

- The configuration file: `load_config`, the YAML file and the `sys.exit` on first run are not modelled. The crawler gets a `Config` record holding `max_retries` and the optional `main_text_min_length`. A missing `urls_file_path` or `max_retries` key, which raises `KeyError` in the source, is not modelled.
- The URL file's JSON I/O: `_check_urls_file` and `_load_urls_file` are not modelled. The constructor takes the stored list. `_write_urls_file` copies `_urls` into a field and counts the write.
- `requests.get`: it is the `fetch` parameter. The fetched page is already parsed, because BeautifulSoup is not modelled. The page is plain data: headings, title, paragraph texts, `datetime` attributes and anchor hrefs, with their text already extracted.
- `sleep(url_retry_delay)`: sleeps are counted. Their length and wall-clock time are not modelled.
- `print` logging is not modelled.
- `dateutil.parser.parse`: it is a partial function `parse` from string to integer timestamp. `None` is the `ParserError` that `extract_date` skips. Other exceptions of the parser, such as `OverflowError`, are not modelled.
- A `<time>` without a `datetime` attribute: the model treats it as an error that propagates (`MissingDatetime`), because the parser raises `TypeError` there, which `extract_date` does not catch.
- `datetime.now()`: it is a parameter `now`, fixed for the crawler's lifetime.
- Timestamps are integers, so `min` over naive and aware datetimes, which raises `TypeError` in Python, is not modelled.
- `urlparse`: the model keeps its netloc rule (scheme, `//`, authority up to `/`, `?` or `#`). It does not model the stripping of whitespace and control characters, the `ValueError` on malformed IPv6 brackets, or the scheme rules of older Python versions.
- `urlsplit` raises `ValueError` for a non-ASCII netloc whose NFKC normal form contains `/`, `?`, `#`, `@` or `:`. In `extract_netloc_links` that would make the scrape fail, while the model's netloc filter never fails.
- CrawlerProperties.LoadAllFail: Python's recursion limit is not modelled. `_load_url` retries by recursion, so with `max_retries` in the high hundreds and every request failing, a `RecursionError` escapes in place of `MaxRetriesReached`. The exact count therefore holds only below that limit. The same limit bounds how deep `_recursive_crawl_site` can go.
- `str.lower()`: only ASCII letters are lower-cased. Other Unicode case mappings are not modelled.
- `Crawler.Accumulator`: the `scraped_articles` set is a sequence in insertion order. Python iterates the set in an order the model does not fix, and `crawl_site` returns the set object itself, while the model returns its articles.
- Crawler.Crawler.constructor: the scraper registry is a parameter. The source ships an empty list, and with it `ChooseDefault` gives the general scraper every time.
- `GeneralScraper._min_length` (150) is set but never read, so it is not modelled.
- Models.FromDict: Python stores whatever value it finds under a key. The model's record is typed, so a value of the wrong kind is a `WrongKind` failure.
- Concrete site scrapers: only their interface is modelled (`BaseScraper.Scraper`). An extractor that raises is a `Failure` result.
- `test_crawler.py` and `experiments/scraping.py` are not part of this model.

## Findings

| source | as written | input that shows it | evidently intended | confidence | as-written member | corrected member |
|---|---|---|---|---|---|---|
| grawt/models.py:12-13 | `to_dict` evaluates `self.__dict__` but has no `return`, so it yields `None` | any `ScrapedArticle` `a`: `a.to_dict()` is `None`, and `ScrapedArticle.from_dict(a.to_dict())` raises `TypeError` | return the record's fields as a dictionary, with the main text under the key `maintext` that `from_dict` reads, so that `from_dict(a.to_dict())` rebuilds `a` except for its URL; a bare `return self.__dict__` would key the body text as `main_text`, and `from_dict` would still raise `KeyError('maintext')` | high (not executed) | Models.ToDictHasNoRoundTrip | Models.DictRoundTrip |
