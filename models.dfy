/** `ScrapedArticle` and its dictionary conversions (grawt/models.py). */
module Models {
  import opened Wrappers
  import opened Errors

  /** One scraped page. `url` stays `None` until the crawler assigns it; the
      publish date is a timestamp. */
  datatype Article = Article(
    url: Option<string>,
    headline: string,
    mainText: string,
    datetime: int,
    hrefs: seq<string>,
    netlocLinks: seq<string>)

  /** A dictionary value: text, a timestamp or a list of links. */
  datatype Value = Text(text: string) | Stamp(stamp: int) | Links(links: seq<string>)

  type Dict = map<string, Value>

  /** `doc[key]` where the field wants text. */
  function TextAt(doc: Dict, key: string): (r: Result<string, Error>)
    ensures r.Success? <==> key in doc && doc[key].Text?
    ensures r.Success? ==> Text(r.value) == doc[key]
    ensures key !in doc ==> r == Failure(KeyError(key))
  {
    if key !in doc then Failure(KeyError(key))
    else if doc[key].Text? then Success(doc[key].text)
    else Failure(WrongKind(key))
  }

  /** `doc[key]` where the field wants a timestamp. */
  function StampAt(doc: Dict, key: string): (r: Result<int, Error>)
    ensures r.Success? <==> key in doc && doc[key].Stamp?
    ensures r.Success? ==> Stamp(r.value) == doc[key]
    ensures key !in doc ==> r == Failure(KeyError(key))
  {
    if key !in doc then Failure(KeyError(key))
    else if doc[key].Stamp? then Success(doc[key].stamp)
    else Failure(WrongKind(key))
  }

  /** `doc[key]` where the field wants a list of links. */
  function LinksAt(doc: Dict, key: string): (r: Result<seq<string>, Error>)
    ensures r.Success? <==> key in doc && doc[key].Links?
    ensures r.Success? ==> Links(r.value) == doc[key]
    ensures key !in doc ==> r == Failure(KeyError(key))
  {
    if key !in doc then Failure(KeyError(key))
    else if doc[key].Links? then Success(doc[key].links)
    else Failure(WrongKind(key))
  }

  /** `ScrapedArticle.from_dict`: reads the five keys in the order the fields
      are assigned; `main_text` comes from the key `maintext`, and `url` is
      never read or set. */
  function FromDict(doc: Dict): (r: Result<Article, Error>)
    ensures r.Success? ==> r.value.url == None
    ensures r.Success? <==>
      "headline" in doc && doc["headline"].Text? && "maintext" in doc && doc["maintext"].Text? &&
      "datetime_" in doc && doc["datetime_"].Stamp? && "hrefs" in doc && doc["hrefs"].Links? &&
      "netloc_links" in doc && doc["netloc_links"].Links?
    ensures r.Success? ==>
      doc["headline"] == Text(r.value.headline) && doc["maintext"] == Text(r.value.mainText) &&
      doc["datetime_"] == Stamp(r.value.datetime) && doc["hrefs"] == Links(r.value.hrefs) &&
      doc["netloc_links"] == Links(r.value.netlocLinks)
    ensures "headline" !in doc ==> r == Failure(KeyError("headline"))
    ensures "headline" in doc && doc["headline"].Text? && "maintext" !in doc ==>
      r == Failure(KeyError("maintext"))
    ensures ("headline" in doc && doc["headline"].Text? && "maintext" in doc && doc["maintext"].Text? &&
             "datetime_" !in doc) ==>
      r == Failure(KeyError("datetime_"))
    ensures ("headline" in doc && doc["headline"].Text? && "maintext" in doc && doc["maintext"].Text? &&
             "datetime_" in doc && doc["datetime_"].Stamp? && "hrefs" !in doc) ==>
      r == Failure(KeyError("hrefs"))
    ensures ("headline" in doc && doc["headline"].Text? && "maintext" in doc && doc["maintext"].Text? &&
             "datetime_" in doc && doc["datetime_"].Stamp? && "hrefs" in doc && doc["hrefs"].Links? &&
             "netloc_links" !in doc) ==>
      r == Failure(KeyError("netloc_links"))
  {
    var headline :- TextAt(doc, "headline");
    var mainText :- TextAt(doc, "maintext");
    var datetime :- StampAt(doc, "datetime_");
    var hrefs :- LinksAt(doc, "hrefs");
    var netlocLinks :- LinksAt(doc, "netloc_links");
    Success(Article(None, headline, mainText, datetime, hrefs, netlocLinks))
  }

  /** `from_dict` never looks at a `main_text` or a `url` entry. */
  lemma FromDictIgnores(doc: Dict, key: string, v: Value)
    requires key == "main_text" || key == "url"
    ensures FromDict(doc[key := v]) == FromDict(doc)
  {
    assert forall k :: k in {"headline", "maintext", "datetime_", "hrefs", "netloc_links"} ==>
      (k in doc[key := v] <==> k in doc) && (k in doc ==> doc[key := v][k] == doc[k]);
  }

  /** `ScrapedArticle.to_dict` as written: its body evaluates the attribute
      dictionary but does not return it, so the call yields `None`. */
  function ToDict(a: Article): (r: Option<Dict>)
    ensures r == None
  {
    None
  }

  /** No article has a dictionary form under `ToDict`, so no dictionary
      `from_dict` could turn back into it comes out of it. */
  lemma ToDictHasNoRoundTrip(a: Article)
    ensures forall d: Dict :: ToDict(a) != Some(d)
  {
  }

  /** `to_dict` as evidently intended: the attribute dictionary, under the keys
      `from_dict` reads (`url` only when it is set). */
  function ToDictFixed(a: Article): (r: Dict)
    ensures "maintext" in r && r["maintext"] == Text(a.mainText)
    ensures "url" in r <==> a.url.Some?
  {
    var fields := map[
      "headline" := Text(a.headline),
      "maintext" := Text(a.mainText),
      "datetime_" := Stamp(a.datetime),
      "hrefs" := Links(a.hrefs),
      "netloc_links" := Links(a.netlocLinks)];
    match a.url
    case Some(u) => fields["url" := Text(u)]
    case None => fields
  }

  /** With the intended `to_dict`, `from_dict` gives back every field but the
      URL, which `from_dict` never sets. */
  lemma DictRoundTrip(a: Article)
    ensures FromDict(ToDictFixed(a)) == Success(a.(url := None))
  {
  }
}
