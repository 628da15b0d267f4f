/**
 * The Exa search wrappers: `search` reduces each provider result to an
 * `{id, title, url, text}` record, `find_similar` hands the provider's answer
 * back untouched, and `get_contents` keeps the first 1000 characters of each
 * fetched item and joins them with blank lines. None of them raises: a
 * failure becomes data (an error record, or an error-prefixed string).
 */
module ExaSearch {
  import opened Wrappers
  import opened Strings

  /** `num_results` passed to `search` and `find_similar`. */
  const NumResults: nat := 3

  /** How many characters of each fetched item are kept. */
  const ContentLimit: nat := 1000

  /** Placed between the fetched pieces. */
  const Separator: string := "\n\n"

  /** Start of the string `get_contents` returns on failure. */
  const ContentsErrorPrefix: string := "\U{26A0}\U{FE0F} Error fetching contents: "

  /** The arguments of `exa.search(query, use_autoprompt=True, num_results=3)`. */
  datatype SearchRequest = SearchRequest(query: string, useAutoprompt: bool, numResults: nat)

  /** The arguments of `exa.find_similar(url, num_results=3)`. */
  datatype SimilarRequest = SimilarRequest(url: string, numResults: nat)

  /** One provider result; any attribute may be missing. */
  datatype ExaResult = ExaResult(id: Option<string>, title: Option<string>, url: Option<string>, text: Option<string>)

  /** The cleaned record: exactly these four fields, each a string. */
  datatype CleanedResult = CleanedResult(id: string, title: string, url: string, text: string)

  /** `{"results": [...]}` on success, `{"results": [], "error": msg}` on failure. */
  datatype SearchOutput = SearchOutput(results: seq<CleanedResult>, error: Option<string>)

  /** What `find_similar` returns: the provider's own answer, or the error record. */
  datatype SimilarOutput<T> = Response(value: T) | ErrorRecord(record: SearchOutput)

  /**
   * One item returned by `exa.get_contents`: the value of its `text`
   * attribute if it has one, its entries if it is a dict, and `str(item)`.
   */
  datatype ContentItem = ContentItem(textAttr: Option<string>, dictEntries: Option<map<string, string>>, repr: string)

  /** `getattr(r, name, "")` for each of the four fields. */
  function Clean(r: ExaResult): CleanedResult
  {
    CleanedResult(r.id.GetOr(""), r.title.GetOr(""), r.url.GetOr(""), r.text.GetOr(""))
  }

  /** A provider result that has every attribute. */
  function Complete(c: CleanedResult): ExaResult
  {
    ExaResult(Some(c.id), Some(c.title), Some(c.url), Some(c.text))
  }

  /**
   * Cleaning keeps every attribute that is present and fills in "" for the
   * missing ones: a cleaned field is empty exactly when the attribute was
   * missing or empty, and a result with all attributes is cleaned back to them.
   */
  lemma CleanKeepsFields(r: ExaResult, c: CleanedResult)
    ensures (Clean(r).id == "") <==> (r.id.None? || r.id == Some(""))
    ensures (Clean(r).title == "") <==> (r.title.None? || r.title == Some(""))
    ensures (Clean(r).url == "") <==> (r.url.None? || r.url == Some(""))
    ensures (Clean(r).text == "") <==> (r.text.None? || r.text == Some(""))
    ensures r.id.Some? ==> Clean(r).id == r.id.value
    ensures r.title.Some? ==> Clean(r).title == r.title.value
    ensures r.url.Some? ==> Clean(r).url == r.url.value
    ensures r.text.Some? ==> Clean(r).text == r.text.value
    ensures Clean(Complete(c)) == c
  {
  }

  /** `search(query)`: one cleaned record per provider result, in the provider's order. */
  method Search(query: string, provider: SearchRequest -> Outcome<seq<ExaResult>>) returns (out: SearchOutput)
    ensures var outcome := provider(SearchRequest(query, true, NumResults));
      match outcome
      case Err(e) => out.results == [] && out.error == Some(e)
      case Ok(raw) =>
        out.error.None? && |out.results| == |raw| &&
        forall i :: 0 <= i < |raw| ==> out.results[i] == Clean(raw[i])
  {
    var outcome := provider(SearchRequest(query, true, NumResults));
    match outcome
    case Err(e) =>
      out := SearchOutput([], Some(e));
    case Ok(raw) =>
      var cleaned: seq<CleanedResult> := [];
      for i := 0 to |raw|
        invariant |cleaned| == i
        invariant forall k :: 0 <= k < i ==> cleaned[k] == Clean(raw[k])
      {
        cleaned := cleaned + [CleanedResult(raw[i].id.GetOr(""), raw[i].title.GetOr(""),
                                            raw[i].url.GetOr(""), raw[i].text.GetOr(""))];
      }
      out := SearchOutput(cleaned, None);
  }

  /** `find_similar(url)`: the provider's answer as it is, or the same error record as `search`. */
  function FindSimilar<T>(url: string, provider: SimilarRequest -> Outcome<T>): (out: SimilarOutput<T>)
    ensures provider(SimilarRequest(url, NumResults)).Ok? ==> out == Response(provider(SimilarRequest(url, NumResults)).value)
    ensures provider(SimilarRequest(url, NumResults)).Err? ==>
      out.ErrorRecord? && out.record.results == [] && out.record.error == Some(provider(SimilarRequest(url, NumResults)).msg)
  {
    match provider(SimilarRequest(url, NumResults))
    case Ok(v) => Response(v)
    case Err(e) => ErrorRecord(SearchOutput([], Some(e)))
  }

  /**
   * The text an item contributes before truncation: its `text` attribute,
   * otherwise the `"text"` entry of a dict, otherwise `str(item)`.
   */
  function TextSource(item: ContentItem): string
  {
    if item.textAttr.Some? then item.textAttr.value
    else if item.dictEntries.Some? && "text" in item.dictEntries.value then item.dictEntries.value["text"]
    else item.repr
  }

  /** The sources are tried in priority order; a later one is used only when every earlier one is missing. */
  lemma TextSourcePriority(item: ContentItem)
    ensures item.textAttr.Some? ==> TextSource(item) == item.textAttr.value
    ensures item.textAttr.None? && item.dictEntries.Some? && "text" in item.dictEntries.value ==>
      TextSource(item) == item.dictEntries.value["text"]
    ensures item.textAttr.None? && (item.dictEntries.None? || "text" !in item.dictEntries.value) ==>
      TextSource(item) == item.repr
  {
  }

  /** The piece an item contributes: the first `ContentLimit` characters of its text. */
  function Piece(item: ContentItem): (p: string)
    ensures |p| <= ContentLimit
    ensures p <= TextSource(item)
    ensures |TextSource(item)| <= ContentLimit ==> p == TextSource(item)
    ensures |TextSource(item)| > ContentLimit ==> |p| == ContentLimit
  {
    Truncate(TextSource(item), ContentLimit)
  }

  function Pieces(items: seq<ContentItem>): (ps: seq<string>)
    ensures |ps| == |items|
  {
    seq(|items|, i requires 0 <= i < |items| => Piece(items[i]))
  }

  /** What `get_contents` returns for the parsed `ids` and the provider's answer to them. */
  function ContentsOf(ids: Outcome<seq<string>>, provider: seq<string> -> Outcome<seq<ContentItem>>): string
  {
    match ids
    case Err(e) => ContentsErrorPrefix + e
    case Ok(list) =>
      match provider(list)
      case Err(e) => ContentsErrorPrefix + e
      case Ok(items) => Join(Pieces(items), Separator)
  }

  /**
   * `get_contents(ids)`: `ids` is the argument after it has been turned into
   * a list (or the error doing so raised); `provider` stands for
   * `exa.get_contents`.
   */
  method GetContents(ids: Outcome<seq<string>>, provider: seq<string> -> Outcome<seq<ContentItem>>) returns (s: string)
    ensures s == ContentsOf(ids, provider)
    ensures ids.Err? ==> s == ContentsErrorPrefix + ids.msg
    ensures ids.Ok? && provider(ids.value).Err? ==> s == ContentsErrorPrefix + provider(ids.value).msg
    ensures ids.Ok? && provider(ids.value) == Ok([]) ==> s == ""
  {
    match ids
    case Err(e) =>
      s := ContentsErrorPrefix + e;
    case Ok(list) =>
      var results := provider(list);
      match results
      case Err(e) =>
        s := ContentsErrorPrefix + e;
      case Ok(items) =>
        var contents: seq<string> := [];
        for i := 0 to |items|
          invariant contents == Pieces(items[..i])
        {
          var item := items[i];
          var text;
          if item.textAttr.Some? {
            text := item.textAttr.value;
          } else if item.dictEntries.Some? && "text" in item.dictEntries.value {
            text := item.dictEntries.value["text"];
          } else {
            text := item.repr;
          }
          contents := contents + [Truncate(text, ContentLimit)];
        }
        assert items[..|items|] == items;
        s := Join(contents, Separator);
  }

  /**
   * The joined contents hold the pieces in result order: one more item adds
   * a blank line and its piece at the end.
   */
  lemma ContentsAppend(items: seq<ContentItem>, item: ContentItem)
    ensures Join(Pieces(items + [item]), Separator) ==
      if items == [] then Piece(item) else Join(Pieces(items), Separator) + Separator + Piece(item)
  {
    assert Pieces(items + [item]) == Pieces(items) + [Piece(item)];
    JoinSnoc(Pieces(items), Piece(item), Separator);
  }

  /** The joined contents are at most 1000 characters per item plus the blank lines between them. */
  lemma ContentsLength(items: seq<ContentItem>)
    ensures items == [] ==> Join(Pieces(items), Separator) == ""
    ensures items != [] ==> |Join(Pieces(items), Separator)| <= ContentLimit * |items| + |Separator| * (|items| - 1)
    ensures |items| <= 1 ==> |Join(Pieces(items), Separator)| <= ContentLimit
  {
    JoinLength(Pieces(items), Separator);
    TotalLengthBound(Pieces(items), ContentLimit);
  }
}
