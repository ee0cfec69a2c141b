/** The two NCBI E-utilities calls: `esearch` (a search term to a list of PMIDs) and
    `efetch` (PMIDs to normalised paper records). The HTTP round trip, and for EFetch
    the XML parsing, is a parameter `server`; what is modelled is the request each
    function builds and what it does with the answer. */
module EUtils {
  import opened Wrappers
  import opened Errors
  import opened Strings

  /** The `db` parameter of both requests. */
  const Db: string := "pubmed"

  /** What `efetch` reports for an article without any `AbstractText` element. */
  const NoAbstract: string := "（要約なし）"

  // ---------------------------------------------------------------- ESearch

  /** The query parameters of an ESearch request (the API key is not modelled). */
  datatype SearchParams = SearchParams(db: string, term: string, retmax: int, retmode: string)

  /** The `esearchresult` object of the JSON answer, whose `idlist` may be missing. */
  datatype SearchResult = SearchResult(idlist: Option<seq<string>>)

  /** The decoded JSON answer of ESearch, whose `esearchresult` may be missing. */
  datatype SearchResponse = SearchResponse(esearchresult: Option<SearchResult>)

  function SearchRequest(term: string, retmax: int): SearchParams {
    SearchParams(Db, term, retmax, "json")
  }

  /** `data.get("esearchresult", {}).get("idlist", [])`. */
  function IdList(data: SearchResponse): (ids: seq<string>)
    ensures data.esearchresult.Some? && data.esearchresult.value.idlist.Some? ==>
              ids == data.esearchresult.value.idlist.value
    ensures data.esearchresult.None? || data.esearchresult.value.idlist.None? ==> ids == []
  {
    match data.esearchresult
    case None => []
    case Some(result) =>
      match result.idlist
      case None => []
      case Some(ids) => ids
  }

  /** `esearch(term, retmax)`: one ESearch request; an HTTP failure raises, an answer
      without an identifier list reads as no hits. */
  function Esearch(term: string, retmax: int, server: SearchParams -> Result<SearchResponse, Failure>)
    : (r: Result<seq<string>, Failure>)
    ensures r.Err? <==> server(SearchRequest(term, retmax)).Err?
    ensures r.Err? ==> r.error == server(SearchRequest(term, retmax)).error
    ensures var answer := server(SearchRequest(term, retmax));
            answer.Ok? && answer.value.esearchresult.Some? && answer.value.esearchresult.value.idlist.Some? ==>
              r == Ok(answer.value.esearchresult.value.idlist.value)
    ensures var answer := server(SearchRequest(term, retmax));
            answer.Ok? && (answer.value.esearchresult.None? || answer.value.esearchresult.value.idlist.None?) ==>
              r == Ok([])
  {
    match server(SearchRequest(term, retmax))
    case Err(e) => Err(e)
    case Ok(data) => Ok(IdList(data))
  }

  /** A missing identifier list and an empty one give the caller the same answer:
      "no hits", never an error. */
  lemma {:induction false} MissingIdListReadsAsEmpty(server: SearchParams -> Result<SearchResponse, Failure>, term: string, retmax: int)
    requires server(SearchRequest(term, retmax)) == Ok(SearchResponse(None))
             || server(SearchRequest(term, retmax)) == Ok(SearchResponse(Some(SearchResult(None))))
             || server(SearchRequest(term, retmax)) == Ok(SearchResponse(Some(SearchResult(Some([])))))
    ensures Esearch(term, retmax, server) == Ok([])
  {
  }

  // ---------------------------------------------------------------- EFetch

  /** The query parameters of an EFetch request (the API key is not modelled). */
  datatype FetchParams = FetchParams(db: string, id: string, retmode: string)

  /** One `AbstractText` element: its `Label` attribute and its text, either may be missing. */
  datatype Section = Section(labelAttr: Option<string>, text: Option<string>)

  /** One `PubmedArticle` element as the XPath lookups of `efetch` see it: the text
      of the first `PMID`, `ArticleTitle`, `Journal/Title` and
      `Journal/JournalIssue/PubDate/Year` below it (missing when there is no such
      element), and every `AbstractText` below it in document order. */
  datatype PubmedArticle = PubmedArticle(
    pmid: Option<string>,
    articleTitle: Option<string>,
    sections: seq<Section>,
    journalTitle: Option<string>,
    year: Option<string>)

  /** The normalised record `{pmid, title, abstract, journal, year}`. */
  datatype Paper = Paper(pmid: string, title: string, abstractText: string, journal: string, year: string)

  /** `x or ""` on an optional string: a missing or empty text both read as "". */
  function OrEmpty(o: Option<string>): (s: string)
    ensures o.Some? && o.value != "" ==> s == o.value
    ensures o.None? || o.value == "" ==> s == ""
  {
    if o.Some? then o.value else ""
  }

  /** One abstract section: `Label: text` when the label is non-empty, the text alone otherwise. */
  function SectionText(ab: Section): string {
    (if ab.labelAttr.Some? && ab.labelAttr.value != "" then ab.labelAttr.value + ": " else "") + OrEmpty(ab.text)
  }

  /** The sections of an article, formatted, in document order. */
  function SectionTexts(abs: seq<Section>): (r: seq<string>)
    ensures |r| == |abs|
    ensures forall k :: 0 <= k < |abs| ==> r[k] == SectionText(abs[k])
  {
    seq(|abs|, k requires 0 <= k < |abs| => SectionText(abs[k]))
  }

  /** The abstract of one article: its sections joined by newlines, or the placeholder. */
  function AbstractOf(abs: seq<Section>): string {
    if abs != [] then Join("\n", SectionTexts(abs)) else NoAbstract
  }

  /** The record that the loop body of `efetch` builds for one article. */
  function Normalise(art: PubmedArticle): Paper {
    Paper(OrEmpty(art.pmid), OrEmpty(art.articleTitle), AbstractOf(art.sections),
          OrEmpty(art.journalTitle), OrEmpty(art.year))
  }

  /** The records for a batch of articles, one per article, in order. */
  function NormaliseAll(arts: seq<PubmedArticle>): seq<Paper> {
    seq(|arts|, i requires 0 <= i < |arts| => Normalise(arts[i]))
  }

  function FetchRequest(pmids: seq<string>): FetchParams {
    FetchParams(Db, Join(",", pmids), "xml")
  }

  /** What `efetch(pmids)` returns. */
  function EfetchResult(pmids: seq<string>, server: FetchParams -> Result<seq<PubmedArticle>, Failure>)
    : Result<seq<Paper>, Failure>
  {
    if pmids == [] then Ok([])
    else
      match server(FetchRequest(pmids))
      case Err(e) => Err(e)
      case Ok(arts) => Ok(NormaliseAll(arts))
  }

  /** The normalisation loop of `efetch`: for each article the field lookups, the inner
      loop that collects the abstract sections, and one appended record. */
  method NormaliseBatch(arts: seq<PubmedArticle>) returns (out: seq<Paper>)
    ensures |out| == |arts|
    ensures forall i :: 0 <= i < |arts| ==> out[i] == Normalise(arts[i])
  {
    out := [];
    var i := 0;
    while i < |arts|
      invariant 0 <= i <= |arts|
      invariant |out| == i
      invariant forall k :: 0 <= k < i ==> out[k] == Normalise(arts[k])
    {
      var art := arts[i];
      var pmid := OrEmpty(art.pmid);
      var title := OrEmpty(art.articleTitle);
      var absParts: seq<string> := [];
      var j := 0;
      while j < |art.sections|
        invariant 0 <= j <= |art.sections|
        invariant absParts == SectionTexts(art.sections[..j])
      {
        var ab := art.sections[j];
        var section := (if ab.labelAttr.Some? && ab.labelAttr.value != "" then ab.labelAttr.value + ": " else "")
                       + OrEmpty(ab.text);
        absParts := absParts + [section];
        j := j + 1;
      }
      assert art.sections[..j] == art.sections;
      var abstractText := if absParts != [] then Join("\n", absParts) else NoAbstract;
      var journal := OrEmpty(art.journalTitle);
      var year := OrEmpty(art.year);
      out := out + [Paper(pmid, title, abstractText, journal, year)];
      i := i + 1;
    }
  }

  /** `efetch(pmids)`. `sent` lists the requests issued: none for an empty list, else
      exactly one carrying the comma-joined PMIDs. An HTTP or XML failure raises. */
  method Efetch(pmids: seq<string>, server: FetchParams -> Result<seq<PubmedArticle>, Failure>)
    returns (r: Result<seq<Paper>, Failure>, sent: seq<FetchParams>)
    ensures pmids == [] ==> r == Ok([]) && sent == []
    ensures pmids != [] ==> sent == [FetchParams(Db, Join(",", pmids), "xml")]
    ensures pmids != [] && server(FetchRequest(pmids)).Err? ==> r == Err(server(FetchRequest(pmids)).error)
    ensures pmids != [] && server(FetchRequest(pmids)).Ok? ==>
              var arts := server(FetchRequest(pmids)).value;
              r.Ok? && |r.value| == |arts| && forall i :: 0 <= i < |arts| ==> r.value[i] == Normalise(arts[i])
    ensures r == EfetchResult(pmids, server)
  {
    if pmids == [] {
      return Ok([]), [];
    }
    var request := FetchRequest(pmids);
    sent := [request];
    var answer := server(request);
    if answer.Err? {
      return Err(answer.error), sent;
    }
    var out := NormaliseBatch(answer.value);
    assert out == NormaliseAll(answer.value);
    r := Ok(out);
  }

  /** Each of pmid, title, journal and year is the element's text when that is non-empty
      and "" otherwise, each decided by its own element alone. */
  lemma {:induction false} FieldFallbacks(art: PubmedArticle)
    ensures Normalise(art).pmid == (if art.pmid.Some? && art.pmid.value != "" then art.pmid.value else "")
    ensures Normalise(art).title == (if art.articleTitle.Some? && art.articleTitle.value != "" then art.articleTitle.value else "")
    ensures Normalise(art).journal == (if art.journalTitle.Some? && art.journalTitle.value != "" then art.journalTitle.value else "")
    ensures Normalise(art).year == (if art.year.Some? && art.year.value != "" then art.year.value else "")
  {
  }

  /** An article without `AbstractText` elements gets exactly the placeholder. */
  lemma {:induction false} NoSectionsGivesPlaceholder(art: PubmedArticle)
    requires art.sections == []
    ensures Normalise(art).abstractText == NoAbstract
  {
  }

  /** A labelled section reads `Label: text`; an unlabelled one, or one whose label is
      empty, is the text alone; a missing text counts as "". */
  lemma {:induction false} SectionFormat(ab: Section)
    ensures ab.labelAttr.Some? && ab.labelAttr.value != "" ==> SectionText(ab) == ab.labelAttr.value + ": " + OrEmpty(ab.text)
    ensures ab.labelAttr.None? || ab.labelAttr.value == "" ==> SectionText(ab) == OrEmpty(ab.text)
    ensures ab.text.None? ==> SectionText(ab) == SectionText(Section(ab.labelAttr, Some("")))
  {
  }

  /** When no label or text holds a newline, splitting the abstract at newlines gives back
      the formatted sections, one per `AbstractText`, in document order. */
  lemma {:induction false} AbstractSplitsIntoSections(art: PubmedArticle)
    requires art.sections != []
    requires forall k :: 0 <= k < |art.sections| ==>
               '\n' !in OrEmpty(art.sections[k].labelAttr) && '\n' !in OrEmpty(art.sections[k].text)
    ensures Split(Normalise(art).abstractText, '\n') == SectionTexts(art.sections)
  {
    var parts := SectionTexts(art.sections);
    forall k | 0 <= k < |parts| ensures '\n' !in parts[k] {
      var ab := art.sections[k];
      assert parts[k] == SectionText(ab);
      if ab.labelAttr.Some? && ab.labelAttr.value != "" {
        assert parts[k] == ab.labelAttr.value + ": " + OrEmpty(ab.text);
      }
    }
    SplitJoin(parts, '\n');
  }

  /** A single `AbstractText` with neither label nor text gives the empty abstract, not
      the placeholder: only a missing element list is replaced. */
  lemma EmptySectionGivesEmptyAbstract()
    ensures Normalise(PubmedArticle(None, None, [Section(None, None)], None, None)).abstractText == ""
  {
    assert SectionTexts([Section(None, None)]) == [""];
  }
}
