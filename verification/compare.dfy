/** The pure parts of the compare endpoint (`search_compare` in main.py): the
    web half of the comparison, the choice of how to combine the two answers,
    title extraction from the web answer, and the mix of database and web
    suggestions. The two extra model calls (combining answers, extracting
    titles) are parameters. */
module Compare {
  import opened Base
  import opened Seqs
  import opened Text
  import opened Documents
  import opened Oracles
  import opened QueryEnhancement
  import opened BasicRag
  import opened EnhancedRag
  import opened CorrectiveRag
  import opened Suggestions
  import opened CompareTitles
  import opened CompareMix

  // ---------------------------------------------------------------------------
  // Score bands
  // ---------------------------------------------------------------------------

  /** Which answer the combining prompt tells the model to prefer. */
  datatype Band = PreferWeb | Balanced | PreferDatabase

  /** Bands in increasing trust in the database. */
  function BandRank(b: Band): nat
  {
    match b
    case PreferWeb => 0
    case Balanced => 1
    case PreferDatabase => 2
  }

  /** The band for a relevance score: 8.5 and above prefers the database,
      from 7 up to 8.5 balances, anything lower prefers the web. */
  function BandOf(score: real): (b: Band)
    ensures b == PreferDatabase <==> score >= 8.5
    ensures b == Balanced <==> 7.0 <= score < 8.5
    ensures b == PreferWeb <==> score < 7.0
  {
    if score >= 8.5 then PreferDatabase
    else if score >= 7.0 then Balanced
    else PreferWeb
  }

  /** A higher score never trusts the database less. */
  lemma BandMonotone(lo: real, hi: real)
    requires lo <= hi
    ensures BandRank(BandOf(lo)) <= BandRank(BandOf(hi))
  {
  }

  /** The web-preferring band is exactly the range in which the corrective
      pipeline would fall back to web search. */
  lemma PreferWebIsBelowThreshold(score: real)
    ensures BandOf(score) == PreferWeb <==> score < RelevanceThreshold
  {
  }

  // ---------------------------------------------------------------------------
  // The web half
  // ---------------------------------------------------------------------------

  /** One web source as the endpoint reports it. */
  datatype WebSource = WebSource(title: string, source: string)

  /** Title (default 'Web Result') and url (default 'Tavily') of a web document. */
  function WebSourceOf(d: Doc): WebSource
  {
    WebSource(Meta(d, "title", "Web Result"), Meta(d, "url", "Tavily"))
  }

  /** What `run_web` returns: the answer from the web documents (`None` when
      there are none) and their sources. */
  datatype WebRun = WebRun(answer: Option<string>, sources: seq<WebSource>)

  /** `run_web`: no web documents give no answer and no sources; otherwise the
      answer model answers from the formatted web documents and the first five
      documents are reported. */
  function RunWeb(svc: Services, query: string): (w: WebRun)
    ensures WebSearchFallback(svc, query) == [] <==> w.answer.None?
    ensures w.answer.None? ==> w.sources == []
    ensures w.answer.Some? ==>
      w.answer.value == svc.answer(query, FormatDocs(WebSearchFallback(svc, query)))
    ensures |w.sources| == Min(5, |WebSearchFallback(svc, query)|)
    ensures forall i :: 0 <= i < |w.sources| ==> w.sources[i] == WebSourceOf(WebSearchFallback(svc, query)[i])
  {
    var docs := WebSearchFallback(svc, query);
    if |docs| == 0 then WebRun(None, [])
    else WebRun(Some(svc.answer(query, FormatDocs(docs))), MapSeq(SliceTo(docs, 5), WebSourceOf))
  }

  /** Every web document carries a url, so a reported web source is the
      result's url (empty when the result had none) and the 'Tavily' default
      is never used. */
  lemma WebSourceIsUrl(svc: Services, query: string, i: nat)
    requires i < |RunWeb(svc, query).sources|
    ensures svc.webSearch(query).Some? && i < |svc.webSearch(query).value|
    ensures RunWeb(svc, query).sources[i].source == Field(svc.webSearch(query).value[i], "url", "")
  {
    var docs := WebSearchFallback(svc, query);
    assert docs[i] == WebDoc(svc.webSearch(query).value[i]);
  }

  /** Python truthiness of the web answer: present and non-empty. */
  predicate Truthy(answer: Option<string>)
  {
    answer.Some? && answer.value != ""
  }

  /** The combined answer: with a usable web answer, the combining model's
      reply to the band's prompt; otherwise the database answer unchanged. */
  function FinalAnswer(combine: (Band, string, string) -> string, score: real,
                       ragAnswer: string, webAnswer: Option<string>): (a: string)
    ensures !Truthy(webAnswer) ==> a == ragAnswer
    ensures Truthy(webAnswer) ==> a == combine(BandOf(score), ragAnswer, webAnswer.value)
  {
    if Truthy(webAnswer) then combine(BandOf(score), ragAnswer, webAnswer.value) else ragAnswer
  }

  /** A database suggestion as a pick, its rating kept as the number. */
  function RagPick(s: Suggestion): Pick
  {
    Pick(s.title, s.genre, Numeric(s.rating), s.source, s.year)
  }

  // ---------------------------------------------------------------------------
  // The response
  // ---------------------------------------------------------------------------

  /** The database half of the response. */
  datatype RagBlock = RagBlock(answer: string, sources: seq<SourceEntry>, numSources: int)

  /** The web half of the response. */
  datatype WebBlock = WebBlock(answer: string, sources: seq<WebSource>, numSources: int)

  datatype CompareResponse = CompareResponse(query: string, rag: RagBlock, web: WebBlock,
                                             combinedAnswer: string, suggestions: seq<Pick>)

  /** The database half as reported: the answer, the first three sources and
      the number of sources found. */
  function RagHalf(res: EnhancedResponse): (b: RagBlock)
    ensures b.answer == res.answer
    ensures b.numSources == |res.sources|
    ensures |b.sources| == Min(3, |res.sources|) && b.sources == res.sources[..|b.sources|]
  {
    RagBlock(res.answer, SliceTo(res.sources, 3), |res.sources|)
  }

  /** The web half as reported: the answer (empty when there was none), all
      the sources `run_web` kept and their count. */
  function WebHalf(w: WebRun): (b: WebBlock)
    ensures w.answer.None? ==> b.answer == ""
    ensures w.answer.Some? ==> b.answer == w.answer.value
    ensures b.sources == w.sources && b.numSources == |w.sources|
  {
    WebBlock(if w.answer.Some? then w.answer.value else "", w.sources, |w.sources|)
  }

  /** The web suggestions drawn from the web answer: none without a usable
      answer, otherwise picks for the titles the extraction model finds. */
  function WebPicksOf(webAnswer: Option<string>, extract: string -> string): (r: seq<Pick>)
    ensures !Truthy(webAnswer) ==> r == []
    ensures |r| <= 5
  {
    if Truthy(webAnswer) then WebPicks(ExtractTitles(extract(webAnswer.value))) else []
  }

  /** The suggestions before the final cut: the database suggestions mixed
      with the web picks. */
  function MixedPicks(ragSuggestions: seq<Suggestion>, webAnswer: Option<string>,
                      extract: string -> string): (r: seq<Pick>)
    ensures |r| <= 5
    ensures DistinctLower(r)
    ensures !Truthy(webAnswer) ==> r == SliceTo(DedupLower(MapSeq(ragSuggestions, RagPick), {}), 5)
    ensures r == SliceTo(DedupLower(SliceTo(MapSeq(ragSuggestions, RagPick), 3)
                                    + SliceTo(WebPicksOf(webAnswer, extract), 2)
                                    + Drop(MapSeq(ragSuggestions, RagPick), 3), {}), 5)
  {
    var rag := MapSeq(ragSuggestions, RagPick);
    var web := WebPicksOf(webAnswer, extract);
    MixShape(rag, web);
    MixWithoutWeb(rag);
    MixIsCappedDedup(rag, web);
    Mix(rag, web)
  }

  /** Steps 3 and 4 of `search_compare` and its response, from the results of
      the two parallel halves, the relevance score of a plain retrieval and
      the database suggestions: the multi-query answer with its first three
      sources and the full count, the web answer and sources, the answer
      combined by the score's band, and at most five mixed suggestions. */
  function Respond(query: string, ragResult: EnhancedResponse, w: WebRun, score: real,
                   ragSuggestions: seq<Suggestion>,
                   combine: (Band, string, string) -> string,
                   extract: string -> string): (r: CompareResponse)
    ensures r.query == query
    ensures r.rag.answer == ragResult.answer && r.rag.numSources == |ragResult.sources|
    ensures |r.rag.sources| == Min(3, |ragResult.sources|)
    ensures r.rag.sources == ragResult.sources[..|r.rag.sources|]
    ensures r.web.sources == w.sources && r.web.numSources == |w.sources|
    ensures w.answer.None? ==> r.web.answer == ""
    ensures w.answer.Some? ==> r.web.answer == w.answer.value
    ensures !Truthy(w.answer) ==> r.combinedAnswer == ragResult.answer
    ensures Truthy(w.answer) ==> r.combinedAnswer == combine(BandOf(score), ragResult.answer, w.answer.value)
    ensures |r.suggestions| <= 5
    ensures DistinctLower(r.suggestions)
    ensures !Truthy(w.answer) ==>
      r.suggestions == SliceTo(DedupLower(MapSeq(ragSuggestions, RagPick), {}), 5)
    ensures r.suggestions == MixedPicks(ragSuggestions, w.answer, extract)
  {
    var mixed := MixedPicks(ragSuggestions, w.answer, extract);
    CompareResponse(query, RagHalf(ragResult), WebHalf(w),
                    FinalAnswer(combine, score, ragResult.answer, w.answer),
                    SliceTo(mixed, 5))
  }

  /** `search_compare`: the multi-query pipeline and `run_web` side by side,
      the relevance score of a plain retrieval of `k` documents, and ten
      database suggestions, assembled by `Respond`. */
  function SearchCompare(svc: Services, query: string, k: int,
                         combine: (Band, string, string) -> string,
                         extract: string -> string): (r: CompareResponse)
    ensures r.rag.numSources == |QueryEnhanced(svc, query, "multi_query", k).sources|
    ensures r.web.sources == RunWeb(svc, query).sources
    ensures |r.suggestions| <= 5
  {
    Respond(query, QueryEnhanced(svc, query, "multi_query", k), RunWeb(svc, query),
            Score(svc, query, Retrieve(svc.search, query, k)).score,
            GetMovieSuggestions(svc, query, 10), combine, extract)
  }
}
