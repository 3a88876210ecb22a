/** A parsed HTML page, reduced to what the extractors read from it. */
module Html {
  import opened Wrappers

  /** The `n` of an `<hn>` heading tag. */
  type Level = l: int | 1 <= l <= 6 witness 1

  datatype Heading = Heading(level: Level, text: string)

  datatype Document = Document(
    /** every `<h1>` … `<h6>` element, in document order, with its text */
    headings: seq<Heading>,
    /** the text of the first `<title>` element, if there is one */
    title: Option<string>,
    /** the text of every `<p>` element, in document order */
    paragraphs: seq<string>,
    /** the `datetime` attribute of every `<time>` element, in document order */
    times: seq<Option<string>>,
    /** the `href` attribute of every `<a>` element, in document order */
    anchors: seq<Option<string>>)
}
