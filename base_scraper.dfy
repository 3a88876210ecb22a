/** The extraction contract (grawt/scraper/base_scraper.py): a scraper is its
    class name and the five extractors every concrete scraper must supply;
    `ScrapeArticle` is the composition all scrapers share. */
module BaseScraper {
  import opened Wrappers
  import opened Errors
  import opened Html
  import opened Models

  /** A concrete scraper. An extractor that raises gives `Failure`. */
  datatype Scraper = Scraper(
    /** `type(scraper).__name__` */
    typeName: string,
    extractHeadline: Document -> Result<string, Error>,
    /** takes the minimum paragraph length `min_chars` */
    extractMainText: (Document, int) -> Result<string, Error>,
    extractDate: Document -> Result<int, Error>,
    extractAllHrefs: Document -> Result<seq<string>, Error>,
    extractNetlocLinks: Document -> Result<seq<string>, Error>)

  /** `BaseScraper.scrape_article`: one call to each extractor, in the order
      headline, main text, date, hrefs, netloc links, with
      `main_text_min_length` handed on as `min_chars`. The first extractor to
      raise aborts the composition with its error; otherwise the record holds
      the five results and no URL. */
  function ScrapeArticle(s: Scraper, soup: Document, mainTextMinLength: int): (r: Result<Article, Error>)
    ensures r.Success? <==>
      s.extractHeadline(soup).Success? && s.extractMainText(soup, mainTextMinLength).Success? &&
      s.extractDate(soup).Success? && s.extractAllHrefs(soup).Success? &&
      s.extractNetlocLinks(soup).Success?
    ensures r.Success? ==> r.value == Article(
      None,
      s.extractHeadline(soup).value,
      s.extractMainText(soup, mainTextMinLength).value,
      s.extractDate(soup).value,
      s.extractAllHrefs(soup).value,
      s.extractNetlocLinks(soup).value)
    ensures s.extractHeadline(soup).Failure? ==>
      r == Failure(s.extractHeadline(soup).error)
    ensures (s.extractHeadline(soup).Success? &&
             s.extractMainText(soup, mainTextMinLength).Failure?) ==>
      r == Failure(s.extractMainText(soup, mainTextMinLength).error)
    ensures (s.extractHeadline(soup).Success? &&
             s.extractMainText(soup, mainTextMinLength).Success? &&
             s.extractDate(soup).Failure?) ==>
      r == Failure(s.extractDate(soup).error)
    ensures (s.extractHeadline(soup).Success? &&
             s.extractMainText(soup, mainTextMinLength).Success? &&
             s.extractDate(soup).Success? &&
             s.extractAllHrefs(soup).Failure?) ==>
      r == Failure(s.extractAllHrefs(soup).error)
    ensures (s.extractHeadline(soup).Success? &&
             s.extractMainText(soup, mainTextMinLength).Success? &&
             s.extractDate(soup).Success? &&
             s.extractAllHrefs(soup).Success? &&
             s.extractNetlocLinks(soup).Failure?) ==>
      r == Failure(s.extractNetlocLinks(soup).error)
  {
    var headline :- s.extractHeadline(soup);
    var mainText :- s.extractMainText(soup, mainTextMinLength);
    var datetime :- s.extractDate(soup);
    var hrefs :- s.extractAllHrefs(soup);
    var netlocLinks :- s.extractNetlocLinks(soup);
    Success(Article(None, headline, mainText, datetime, hrefs, netlocLinks))
  }
}
