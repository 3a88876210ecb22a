/** The exceptions the crawl engine raises or lets escape, as values. */
module Errors {

  datatype Error =
      /** `MaxRetriesReached` raised by `Crawler._load_url`. */
    | MaxRetriesReached
      /** `soup.find('title')` gave None, so `.get_text()` raised. */
    | NoTitle
      /** a `<time>` element without a `datetime` attribute: the date parser is
          handed None and raises a TypeError, which is not a parse error. */
    | MissingDatetime
      /** `doc[key]` on a dictionary without that key. */
    | KeyError(key: string)
      /** a dictionary value of the wrong kind for its field. */
    | WrongKind(key: string)
      /** any exception raised by a specialised scraper's extractor. */
    | ExtractorRaised(message: string)
}
