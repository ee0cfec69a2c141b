/** The chat tab: one turn appends the user's message to the session's message log,
    runs translate, search and fetch, summarises every paper and appends the
    assistant's reply. The summariser (`summarize_with_gpt`) and the other outside
    services are parameters. */
module Chat {
  import opened Wrappers
  import opened Errors
  import opened Strings
  import opened Query
  import opened EUtils

  /** `retmax` of the chat tab's search. */
  const ChatRetmax: int := 5

  /** The assistant's reply when the search found no paper. */
  const NotFound: string := "文献が見つかりませんでした。検索式を少し緩めてみてください。"

  datatype Role = User | Assistant

  /** One entry `{"role": ..., "content": ...}` of the message log. */
  datatype Message = Message(role: Role, content: string)

  /** The outside services a turn calls: the language model behind `jp_to_pubmed_query`,
      ESearch, EFetch (HTTP and XML parsing) and the language model behind
      `summarize_with_gpt`. Each may raise. */
  datatype Services = Services(
    complete: string -> Result<string, Failure>,
    search: SearchParams -> Result<SearchResponse, Failure>,
    fetch: FetchParams -> Result<seq<PubmedArticle>, Failure>,
    summarize: string -> Result<string, Failure>)

  /** What became of a turn: no input, an appended reply, or an exception. */
  datatype TurnOutcome = NoInput | Answered(reply: string) | Raised(failure: Failure)

  /** The text handed to the summariser for one paper: title, journal and year, then the abstract. */
  function SummaryInput(p: Paper): string {
    p.title + " (" + p.journal + " " + p.year + ")\n" + p.abstractText
  }

  /** The reply line for one paper and its summary. */
  function ReplyLine(p: Paper, summary: string): string {
    "- **" + p.title + "**（" + p.journal + " " + p.year + "）PMID:" + p.pmid + "\n  " + summary
  }

  /** The reply lines, in paper order, or the first summariser failure, which ends the loop. */
  function Lines(papers: seq<Paper>, summarize: string -> Result<string, Failure>): (r: Result<seq<string>, Failure>)
    ensures r.Ok? <==> forall i :: 0 <= i < |papers| ==> summarize(SummaryInput(papers[i])).Ok?
    ensures r.Ok? ==> |r.value| == |papers|
    ensures r.Ok? ==> forall i :: 0 <= i < |papers| ==>
              r.value[i] == ReplyLine(papers[i], summarize(SummaryInput(papers[i])).value)
    ensures r.Err? ==> exists j :: 0 <= j < |papers| && summarize(SummaryInput(papers[j])) == Err(r.error)
                        && forall k :: 0 <= k < j ==> summarize(SummaryInput(papers[k])).Ok?
  {
    if papers == [] then Ok([])
    else
      var last := papers[|papers| - 1];
      match Lines(papers[..|papers| - 1], summarize)
      case Err(e) => Err(e)
      case Ok(ls) =>
        match summarize(SummaryInput(last))
        case Err(e) => Err(e)
        case Ok(s) => Ok(ls + [ReplyLine(last, s)])
  }

  /** The assistant's reply for the fetched papers. */
  function Reply(papers: seq<Paper>, summarize: string -> Result<string, Failure>): Result<string, Failure> {
    if papers == [] then Ok(NotFound)
    else
      match Lines(papers, summarize)
      case Err(e) => Err(e)
      case Ok(ls) => Ok(Join("\n\n", ls))
  }

  /** The whole turn for one chat input, as a value. */
  function TurnResult(input: string, env: Services): (r: TurnOutcome)
    ensures r.NoInput? <==> input == ""
  {
    if input == "" then NoInput
    else
      match Translate(input, env.complete)
      case Err(e) => Raised(e)
      case Ok(query) =>
        match Esearch(query, ChatRetmax, env.search)
        case Err(e) => Raised(e)
        case Ok(pmids) =>
          match EfetchResult(pmids, env.fetch)
          case Err(e) => Raised(e)
          case Ok(papers) =>
            match Reply(papers, env.summarize)
            case Err(e) => Raised(e)
            case Ok(reply) => Answered(reply)
  }

  /** The reply construction of a turn: the not-found text, or one line per paper built
      in a loop and joined by blank lines. */
  method ComposeReply(papers: seq<Paper>, summarize: string -> Result<string, Failure>)
    returns (r: Result<string, Failure>)
    ensures r == Reply(papers, summarize)
  {
    if papers == [] {
      return Ok(NotFound);
    }
    var lines: seq<string> := [];
    var i := 0;
    while i < |papers|
      invariant 0 <= i <= |papers|
      invariant Lines(papers[..i], summarize) == Ok(lines)
    {
      var summary := summarize(SummaryInput(papers[i]));
      assert papers[..i + 1][..i] == papers[..i];
      if summary.Err? {
        assert Lines(papers[..i + 1], summarize) == Err(summary.error);
        return Err(summary.error);
      }
      lines := lines + [ReplyLine(papers[i], summary.value)];
      i := i + 1;
    }
    assert papers[..i] == papers;
    r := Ok(Join("\n\n", lines));
  }

  /** The body of a chat turn between the two log appends: translate, search with
      `retmax` 5, fetch, and build the reply. Any exception ends the turn. */
  method RunPipeline(input: string, env: Services) returns (outcome: TurnOutcome)
    ensures outcome == TurnResult(input, env)
  {
    if input == "" {
      return NoInput;
    }
    var query := Translate(input, env.complete);
    if query.Err? {
      return Raised(query.error);
    }
    var pmids := Esearch(query.value, ChatRetmax, env.search);
    if pmids.Err? {
      return Raised(pmids.error);
    }
    var papers, _ := Efetch(pmids.value, env.fetch);
    if papers.Err? {
      return Raised(papers.error);
    }
    var reply := ComposeReply(papers.value, env.summarize);
    if reply.Err? {
      return Raised(reply.error);
    }
    outcome := Answered(reply.value);
  }

  /** The log holds completed turns only: user and assistant entries alternate, starting with the user. */
  ghost predicate Alternating(log: seq<Message>) {
    |log| % 2 == 0 && forall i :: 0 <= i < |log| ==> log[i].role == (if i % 2 == 0 then User else Assistant)
  }

  /** `st.session_state.messages`: the message log of one session, only ever appended to. */
  class ChatSession {
    var messages: seq<Message>

    /** `st.session_state.messages = []` on the session's first run. */
    constructor ()
      ensures messages == []
    {
      messages := [];
    }

    /** One chat turn. The user entry is appended before the pipeline runs, so it stays
        when the pipeline raises; the assistant entry is appended only when the reply
        has been built. */
    method Turn(input: string, env: Services) returns (outcome: TurnOutcome)
      modifies this
      ensures outcome == TurnResult(input, env)
      ensures outcome.NoInput? ==> messages == old(messages)
      ensures outcome.Answered? ==>
                messages == old(messages) + [Message(User, input), Message(Assistant, outcome.reply)]
      ensures outcome.Raised? ==> messages == old(messages) + [Message(User, input)]
    {
      if input == "" {
        return NoInput;
      }
      messages := messages + [Message(User, input)];
      outcome := RunPipeline(input, env);
      if outcome.Answered? {
        messages := messages + [Message(Assistant, outcome.reply)];
        AppendTwo(old(messages), Message(User, input), Message(Assistant, outcome.reply));
      }
    }
  }

  /** Two appends in a row extend the log by both entries (stated apart from the pipeline
      so that the proof of `Turn` does not have to unfold it). */
  lemma AppendTwo(log: seq<Message>, a: Message, b: Message)
    ensures log + [a] + [b] == log + [a, b]
  {
  }

  /** A failing translation ends the turn with the model's failure, whatever the search would answer. */
  lemma {:induction false} TranslationFailureRaises(input: string, env: Services)
    requires input != "" && env.complete(input).Err?
    ensures TurnResult(input, env) == Raised(env.complete(input).error)
  {
  }

  /** The search is sent the sanitised completion with `retmax` 5; when it fails, the turn
      ends with its failure. */
  lemma {:induction false} SearchFailureRaises(input: string, env: Services)
    requires input != "" && env.complete(input).Ok?
    requires env.search(SearchRequest(Sanitise(env.complete(input).value), ChatRetmax)).Err?
    ensures TurnResult(input, env)
            == Raised(env.search(SearchRequest(Sanitise(env.complete(input).value), ChatRetmax)).error)
  {
  }

  /** The fetch is sent the PMIDs the search answered with; when it fails (an HTTP error or
      a body `ET.fromstring` cannot parse), the turn ends with its failure. */
  lemma {:induction false} FetchFailureRaises(input: string, env: Services, data: SearchResponse)
    requires input != "" && env.complete(input).Ok?
    requires env.search(SearchRequest(Sanitise(env.complete(input).value), ChatRetmax)) == Ok(data)
    requires IdList(data) != [] && env.fetch(FetchRequest(IdList(data))).Err?
    ensures TurnResult(input, env) == Raised(env.fetch(FetchRequest(IdList(data))).error)
  {
  }

  /** Once the fetch answers, the turn's outcome is the reply built from the normalised
      articles: `Answered` with it, or `Raised` with the first summary failure. */
  lemma {:induction false} FetchedPapersGiveReply(input: string, env: Services, data: SearchResponse,
                                                  arts: seq<PubmedArticle>)
    requires input != "" && env.complete(input).Ok?
    requires env.search(SearchRequest(Sanitise(env.complete(input).value), ChatRetmax)) == Ok(data)
    requires IdList(data) != [] && env.fetch(FetchRequest(IdList(data))) == Ok(arts)
    ensures var reply := Reply(NormaliseAll(arts), env.summarize);
            TurnResult(input, env) == (if reply.Ok? then Answered(reply.value) else Raised(reply.error))
  {
  }

  /** PMIDs for which EFetch returns no article also answer with the not-found text. */
  lemma {:induction false} NoArticlesAnswersNotFound(input: string, env: Services, data: SearchResponse)
    requires input != "" && env.complete(input).Ok?
    requires env.search(SearchRequest(Sanitise(env.complete(input).value), ChatRetmax)) == Ok(data)
    requires IdList(data) != [] && env.fetch(FetchRequest(IdList(data))) == Ok([])
    ensures TurnResult(input, env) == Answered(NotFound)
  {
    var query := Sanitise(env.complete(input).value);
    assert Translate(input, env.complete) == Ok(query);
    assert Esearch(query, ChatRetmax, env.search) == Ok(IdList(data));
    assert NormaliseAll([]) == [];
    assert EfetchResult(IdList(data), env.fetch) == Ok([]);
  }

  /** A search without hits answers with the not-found text (and, by the contract of
      `Efetch`, no fetch request is sent). */
  lemma {:induction false} NoHitsAnswersNotFound(input: string, env: Services)
    requires input != ""
    requires Translate(input, env.complete).Ok?
    requires Esearch(Translate(input, env.complete).value, ChatRetmax, env.search) == Ok([])
    ensures TurnResult(input, env) == Answered(NotFound)
  {
  }

  /** With papers, a reply is never the not-found text: it starts with the first paper's line. */
  lemma {:induction false} PapersReplyIsNotNotFound(papers: seq<Paper>, summarize: string -> Result<string, Failure>)
    requires papers != [] && Reply(papers, summarize).Ok?
    ensures Reply(papers, summarize).value != NotFound
    ensures Reply(papers, summarize).value[0] == '-'
  {
    var ls := Lines(papers, summarize).value;
    JoinStartsWithFirstPart("\n\n", ls);
  }

  /** One more paper adds exactly one more paragraph, after a blank line, at the end. */
  lemma {:induction false} ReplyGrowsByOneLine(papers: seq<Paper>, p: Paper, summarize: string -> Result<string, Failure>)
    requires papers != []
    requires Reply(papers, summarize).Ok? && summarize(SummaryInput(p)).Ok?
    ensures Reply(papers + [p], summarize)
            == Ok(Reply(papers, summarize).value + "\n\n" + ReplyLine(p, summarize(SummaryInput(p)).value))
  {
    assert (papers + [p])[..|papers|] == papers;
    JoinSnoc("\n\n", Lines(papers, summarize).value, ReplyLine(p, summarize(SummaryInput(p)).value));
  }

  /** A failing summary of any one paper fails the whole reply: no per-paper isolation. */
  lemma {:induction false} SummaryFailureFailsReply(papers: seq<Paper>, summarize: string -> Result<string, Failure>, i: int)
    requires 0 <= i < |papers| && summarize(SummaryInput(papers[i])).Err?
    ensures Reply(papers, summarize).Err?
  {
  }

  /** A completed turn keeps a log of completed turns alternating. */
  lemma {:induction false} CompletedTurnKeepsAlternation(log: seq<Message>, input: string, reply: string)
    requires Alternating(log)
    ensures Alternating(log + [Message(User, input), Message(Assistant, reply)])
  {
  }
}
