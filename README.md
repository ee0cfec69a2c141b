# PubMed chat app: a verified model of the search pipeline

The application is one Streamlit page, `app.py`. It takes a question in Japanese and
asks a language model to turn it into an English PubMed query. It searches PubMed
with the NCBI E-utilities (ESearch for PMIDs, EFetch for the article XML) and has
each paper summarised by the language model. Its chat tab keeps a per-session
message log.

This project models the deterministic part of that pipeline in Dafny:

- `Query` (query.dfy): the sanitising expression in `jp_to_pubmed_query`. The query
  is stripped, every backtick is deleted, every line feed becomes a space, and the
  query is stripped again.
- `EUtils` (eutils.dfy): `esearch` and `efetch`.
  - esearch: the request it builds and the identifier list it reads from the
    decoded JSON, with its fallbacks.
  - efetch: the empty-input guard, then the nested normalisation loop over the
    `PubmedArticle` elements, which builds `{pmid, title, abstract, journal, year}`.
- `Chat` (chat.dfy): one turn of the chat tab.
  - `ChatSession` holds `st.session_state.messages` as an append-only `seq`.
  - `RunPipeline` chains translate, search (retmax 5) and fetch.
  - `ComposeReply` builds the reply: the fixed not-found text, or one line per paper
    joined by blank lines.
- `Strings` (strings.dfy): the Python primitives the code uses:
  - `str.isspace`, with all 29 code points listed;
  - `strip`;
  - `sep.join`;
  - `split`, which the application never calls; it is here only to state that a
    join can be undone (`AbstractSplitsIntoSections`).
- `Errors`, `Wrappers`: the exceptions that can escape a call, and `Option`/`Result`.

The language model, HTTP and XML parsing are parameters: the `Services` datatype in
chat.dfy and the `server` arguments in eutils.dfy. Each of them either answers or
raises (`Result<_, Failure>`).

- EFetch's `server` returns the parsed tree. Each article comes as a
  `PubmedArticle` value holding what the XPath lookups of `efetch` read.
- `Efetch` returns the list of requests it sent. An empty PMID list sends none.

## Behaviour of the code worth knowing

- A failing summary is not isolated per paper. `summarize_with_gpt` is called
  unguarded, so one failure ends the whole chat turn. The log then keeps the user
  entry and gets no assistant entry (`SummaryFailureFailsReply`, `Turn`).
- Only backticks are deleted, not quotes. Only line feeds become spaces: a CRLF
  completion keeps its carriage return (`OnlyLineFeedsReplaced`).
- The sanitised query can be empty (`SanitiseMayBeEmpty`). Nothing guarantees a
  non-empty search term.
- The placeholder `（要約なし）` replaces a missing list of `AbstractText` elements,
  not an empty abstract. One `AbstractText` with no label and no text gives the
  abstract `""` (`EmptySectionGivesEmptyAbstract`).
- A label that is present but empty adds no `Label: ` prefix, because `""` is falsy
  in Python (`SectionFormat`).
- An EFetch body that `ET.fromstring` cannot parse raises (`MalformedXml`). The chat
  turn then ends with that failure; it is not reported as "no results"
  (`FetchFailureRaises`).
- PMIDs for which EFetch returns no article give the not-found reply, just as a
  search without hits does (`NoArticlesAnswersNotFound`, `NoHitsAnswersNotFound`).

## Model

| member | source | states |
|---|---|---|
| Strings.IsSpace | app.py:36-38 | Python's `str.isspace`: the 29 code points that `strip()` removes (a definition, used by every strip and sanitise row) |
| Strings.LStrip | app.py:36 | the result is the longest suffix of the input that does not start with Python whitespace; everything dropped is whitespace |
| Strings.RStrip | app.py:36 | the result is the longest prefix of the input that does not end with Python whitespace; everything dropped is whitespace |
| Strings.Strip | app.py:36-38 | the result neither starts nor ends with whitespace; an already trimmed string is returned unchanged |
| Strings.StripTakesMiddle | app.py:36-38 | the stripped string is a contiguous slice of the original, and everything before and after that slice is whitespace |
| Strings.StripAddsNothing | app.py:36-38 | every character of a stripped string occurs in the original |
| Strings.StripKeepsContent | app.py:36-38 | stripping never removes a character that is not whitespace |
| Strings.Join | app.py:65 | `sep.join(parts)`, also used at lines 52 and 146: the parts in order with `sep` between neighbours (a definition; stated by `JoinSnoc`, `JoinStartsWithFirstPart` and the round trip `SplitJoin`) |
| Query.RemoveAll | app.py:38 | deleting every backtick: the character no longer occurs, every other character keeps its count, and a string without it is unchanged |
| Query.RemoveAllAppend | app.py:38 | deleting a character distributes over concatenation, so the remaining characters keep their order |
| Query.ReplaceAll | app.py:38 | `replace("\n", " ")`: same length, and each position holds the replacement exactly where the input had the replaced character |
| Query.Sanitise | app.py:36-38 | the sanitised query contains no backtick and no line feed, and has no leading or trailing whitespace |
| Query.Translate | app.py:31-38 | a failing model call propagates its failure; a successful one yields exactly `Sanitise` of the completion, a single-line, trimmed query |
| Query.SanitiseIdempotent | app.py:36-38 | sanitising a sanitised query returns it unchanged |
| Query.SanitiseKeepsContent | app.py:36-38 | every character of the completion that is neither whitespace nor a backtick appears in the query |
| Query.SanitiseMayBeEmpty | app.py:36-38 | a completion of backticks and a line feed gives the empty query |
| Query.OnlyLineFeedsReplaced | app.py:38 | on a trimmed completion without backticks, sanitising is exactly `replace("\n", " ")`: every other character, a carriage return included, keeps its place |
| EUtils.SearchRequest | app.py:43 | the ESearch parameters: `db` `pubmed`, the term, `retmax` and `retmode` `json` (a definition; `SearchFailureRaises` states what the chat turn sends) |
| EUtils.IdList | app.py:47 | the `idlist` when both `esearchresult` and `idlist` are present, the empty list when either is missing |
| EUtils.Esearch | app.py:42-47 | a failing request raises with its failure; otherwise the answer's `idlist` when present, else no identifiers |
| EUtils.MissingIdListReadsAsEmpty | app.py:47 | an answer without `esearchresult`, without `idlist` or with an empty `idlist` all give `Ok([])`, never an error |
| EUtils.OrEmpty | app.py:58-67 | `x or ""`: the text when it is present and non-empty, `""` when it is missing or empty |
| EUtils.SectionText | app.py:62-63 | one abstract section: `Label: ` before the text only for a non-empty label, a missing text read as `""` (a definition; stated by `SectionFormat`) |
| EUtils.SectionTexts | app.py:61-64 | one formatted section per `AbstractText`, in document order |
| EUtils.AbstractOf | app.py:65 | the sections joined by newlines, or `（要約なし）` when there is none (a definition; stated by `NoSectionsGivesPlaceholder`, `AbstractSplitsIntoSections`, `EmptySectionGivesEmptyAbstract`) |
| EUtils.Normalise | app.py:58-68 | the record `{pmid, title, abstract, journal, year}` for one article (a definition; stated by `FieldFallbacks` and the abstract lemmas) |
| EUtils.NormaliseAll | app.py:56-68 | the `out` list: one record per `PubmedArticle`, in document order (a definition; `NormaliseBatch` is the loop proved to build it) |
| EUtils.FetchRequest | app.py:52 | the EFetch parameters: `db` `pubmed`, the PMIDs joined by commas, `retmode` `xml` (a definition; `Efetch` states the request it sends) |
| EUtils.EfetchResult | app.py:50-69 | what `efetch` returns, as a value (a definition; `Efetch` is proved equal to it) |
| EUtils.NormaliseBatch | app.py:56-68 | exactly one record per `PubmedArticle`, in document order, each the normalisation of its article |
| EUtils.Efetch | app.py:50-69 | no PMIDs: `[]` and no request sent; otherwise one request with the comma-joined PMIDs; a failed request or parse raises; else one normalised record per article in order |
| EUtils.FieldFallbacks | app.py:58-67 | pmid, title, journal and year are each their element's text if non-empty and `""` otherwise, each decided by its own element |
| EUtils.NoSectionsGivesPlaceholder | app.py:60-65 | an article without `AbstractText` gets abstract exactly `（要約なし）` |
| EUtils.SectionFormat | app.py:62-63 | a section is `label + ": " + text` when the label is non-empty, the text alone otherwise; a missing text counts as `""` |
| EUtils.AbstractSplitsIntoSections | app.py:60-65 | with sections and no newline inside any of them, splitting the abstract at newlines gives the formatted sections back, in order |
| EUtils.EmptySectionGivesEmptyAbstract | app.py:60-65 | a single `AbstractText` with neither label nor text gives the abstract `""`, not the placeholder |
| Chat.SummaryInput | app.py:144 | the summariser's input: `title (journal year)`, a newline, the abstract (a definition, used by `Lines`) |
| Chat.ReplyLine | app.py:145 | one reply line: `- **title**（journal year）PMID:pmid`, a newline, two spaces and the summary (a definition, used by `Lines`) |
| Chat.Lines | app.py:142-145 | succeeds exactly when every paper's summary succeeds; then one line per paper, in paper order, built from that paper and its summary; otherwise the failure of the first paper whose summary fails |
| Chat.ComposeReply | app.py:137-146 | the loop builds exactly the reply: the not-found text for no papers, else the per-paper lines joined by blank lines, or the first summary failure |
| Chat.Reply | app.py:137-146 | the reply for the fetched papers: the not-found text when there is none, else the lines joined by blank lines (a definition; stated by `ComposeReply`, `PapersReplyIsNotNotFound`, `ReplyGrowsByOneLine`, `SummaryFailureFailsReply`) |
| Chat.TurnResult | app.py:125-148 | a turn has an outcome (reply or failure) exactly when there is input; what each stage contributes is stated by the lemmas `TranslationFailureRaises` to `NoHitsAnswersNotFound` |
| Chat.RunPipeline | app.py:129-146 | the method that calls translate, search, `Efetch` and `ComposeReply` in turn is proved to give `TurnResult` |
| Chat.TranslationFailureRaises | app.py:129 | a failing translation ends the turn with the model's failure |
| Chat.SearchFailureRaises | app.py:134 | the search is sent the sanitised completion with `retmax` 5; its failure ends the turn with that failure |
| Chat.FetchFailureRaises | app.py:134-135 | the fetch is sent exactly the PMIDs of the search's answer; its failure (HTTP or unparseable XML) ends the turn with that failure |
| Chat.FetchedPapersGiveReply | app.py:135-148 | once the fetch answers, the outcome is `Reply` of the normalised articles: `Answered` with it, or `Raised` with the first summary failure |
| Chat.NoArticlesAnswersNotFound | app.py:135-140 | PMIDs for which EFetch returns no article answer with the not-found text |
| Chat.ChatSession.constructor | app.py:117-118 | a new session starts with an empty message log |
| Chat.ChatSession.Turn | app.py:124-148 | no input leaves the log unchanged; a completed turn appends exactly a user entry then an assistant entry with the reply; a failing turn appends only the user entry; earlier entries never change |
| Chat.NoHitsAnswersNotFound | app.py:133-140 | when the search finds no PMIDs the turn answers with the fixed not-found text |
| Chat.PapersReplyIsNotNotFound | app.py:137-146 | with at least one paper, a reply starts with `-` and differs from the not-found text |
| Chat.ReplyGrowsByOneLine | app.py:142-146 | one more paper appends exactly one blank line and that paper's line at the end of the reply |
| Chat.SummaryFailureFailsReply | app.py:143-146 | one paper whose summary fails makes the whole reply fail |
| Chat.CompletedTurnKeepsAlternation | app.py:126-148 | appending a completed turn to a log of completed turns keeps user and assistant entries alternating |

## Left out

- The language-model calls (app.py:31-35, 72-81) are the parameters `complete` and
  `summarize`. The prompt wording is not modelled: it is a fixed template around the
  user's text, so `complete` takes that text directly.
- HTTP and transport are parameters: requests, `raise_for_status`, the timeouts, the
  API key, the base URL and JSON decoding. JSON is modelled only as far as line 47
  reads it, with typed optional fields: a missing field, or an `idlist` that is a
  list of strings. Other JSON values are not modelled. In Python:
  - an `esearchresult` that is `null` or not an object raises (`AttributeError`);
  - an `idlist` that is `null` or otherwise falsy reads as no hits, through the
    empty guard of `efetch`;
  - any other non-list `idlist` (a string, say) is passed on to `efetch` as it is.
- `ET.fromstring` and the XPath lookups are not modelled. The fetch parameter returns
  the articles as the lookups see them.
  - `ab.text` is taken as given. In ElementTree it is only the text before the first
    child element.
  - A lookup's text is the first match below the article.
- `st.cache_data` memoisation (l.14, 41, 49) is left out. It affects speed only.
- The Streamlit UI is left out: l.84-124 and the rendering calls, including the
  one-shot search tab (l.90-112), the 60-character expander title and secret loading.
- Record order and provenance are not local guarantees. `efetch` returns records in
  the document order of the EFetch answer. It never matches them against the
  requested PMIDs, so the model's `fetch` parameter may return any articles in any
  order, and so may the server.
- The result cap is not a local guarantee. `retmax` is sent to the server, and the
  code never truncates the list it gets back.
- Chat input that is `None` or empty skips the turn. Both are modelled as the empty
  string.
