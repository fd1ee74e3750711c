/** The corrective pipeline (corrective_rag.py): retrieve, have a model score
    the evidence, fall back to web search when the score is low, answer, and
    optionally have a model check the answer against its context. */
module CorrectiveRag {
  import opened Base
  import opened Seqs
  import opened Text
  import opened Documents
  import opened Oracles
  import opened BasicRag
  import opened EnhancedRag

  // ---------------------------------------------------------------------------
  // Relevance scoring
  // ---------------------------------------------------------------------------

  /** One entry of the scorer's input: the document's number (from 1), its
      first 200 characters, and an ellipsis. */
  function ScoreLine(i: nat, d: Doc): string
  {
    "Doc " + NatToString(i) + ": " + SliceTo(d.content, 200) + "..."
  }

  /** `docs_text`: the entries of the first three documents, separated by a
      blank line. */
  function ScoreInput(docs: seq<Doc>): string
  {
    Join(Numbered(SliceTo(docs, 3), 1, ScoreLine), "\n\n")
  }

  /** The scorer sees only the first three documents and only the first 200
      characters of each: inputs that agree there are scored alike. */
  lemma ScoreInputSees(a: seq<Doc>, b: seq<Doc>)
    requires Min(3, |a|) == Min(3, |b|)
    requires forall i :: 0 <= i < Min(3, |a|) ==> SliceTo(a[i].content, 200) == SliceTo(b[i].content, 200)
    ensures ScoreInput(a) == ScoreInput(b)
  {
    var na, nb := Numbered(SliceTo(a, 3), 1, ScoreLine), Numbered(SliceTo(b, 3), 1, ScoreLine);
    forall i | 0 <= i < |na| ensures na[i] == nb[i] {
      assert SliceTo(a, 3)[i] == a[i] && SliceTo(b, 3)[i] == b[i];
    }
    assert na == nb;
  }

  /** No documents: the scorer gets the empty string. */
  lemma ScoreInputEmpty()
    ensures ScoreInput([]) == ""
  {
    assert Numbered([], 1, ScoreLine) == [];
  }

  /** The score and its explanation. */
  datatype Relevance = Relevance(score: real, explanation: string)

  /** The lines of a model reply after the surrounding whitespace is removed. */
  function ReplyLines(reply: string): (lines: seq<string>)
    ensures |lines| >= 1
    ensures forall i :: 0 <= i < |lines| ==> '\n' !in lines[i]
  {
    SplitOn(Strip(reply), '\n')
  }

  /** `score_relevance`'s parse: the first line read as a number, the second
      line as the explanation; a first line that is not a number gives the
      neutral score 5 and the whole reply as explanation. */
  function ParseRelevance(reply: string): (r: Relevance)
    ensures ParseNumber(ReplyLines(reply)[0]).None? ==> r == Relevance(5.0, reply)
    ensures ParseNumber(ReplyLines(reply)[0]).Some? ==>
      r.score == ParseNumber(ReplyLines(reply)[0]).value
    ensures ParseNumber(ReplyLines(reply)[0]).Some? ==>
      r.explanation == (if |ReplyLines(reply)| > 1 then ReplyLines(reply)[1] else "No explanation provided")
  {
    var lines := ReplyLines(reply);
    match ParseNumber(lines[0])
    case None => Relevance(5.0, reply)
    case Some(v) =>
      Relevance(v, if |lines| > 1 then lines[1] else "No explanation provided")
  }

  /** A reply holding a whole-number score on its first line and a one-line
      explanation on its second is read back exactly. */
  lemma RelevanceRoundTrip(n: nat, e: string)
    requires |e| > 0 && '\n' !in e && !IsSpace(e[|e| - 1])
    ensures ParseRelevance(NatToString(n) + "\n" + e) == Relevance(n as real, e)
  {
    var d := NatToString(n);
    var reply := d + "\n" + e;
    assert reply[0] == d[0] && IsDigit(d[0]);
    assert reply[|reply| - 1] == e[|e| - 1];
    StripTrimmed(reply);
    assert forall j :: 0 <= j < |d| ==> d[j] != '\n';
    SplitOnPieceThenRest(d, '\n', e);
    assert reply == d + ['\n'] + e;
    SplitOnPiece(e, '\n');
    NatRoundTrip(n);
  }

  /** A reply made of newline-free lines, with no whitespace around it, splits
      back into exactly those lines. */
  lemma ReplyLinesOfJoin(ls: seq<string>)
    requires |ls| >= 1 && forall i :: 0 <= i < |ls| ==> '\n' !in ls[i]
    requires Trimmed(Join(ls, "\n"))
    ensures ReplyLines(Join(ls, "\n")) == ls
  {
    StripTrimmed(Join(ls, "\n"));
    JoinSplitOn(ls, '\n');
  }

  /** A reply of any number of lines whose first line is a decimal score: the
      score is that decimal and the explanation is the second line alone (as
      for "8.5\nGood\nmore"). */
  lemma RelevanceOfLines(ls: seq<string>, whole: string, frac: string)
    requires |ls| >= 2 && forall i :: 0 <= i < |ls| ==> '\n' !in ls[i]
    requires Trimmed(Join(ls, "\n"))
    requires AllDigits(whole) && AllDigits(frac) && |whole| + |frac| > 0
    requires ls[0] == whole + "." + frac
    ensures ParseRelevance(Join(ls, "\n")) == Relevance(DecimalValue(whole, frac), ls[1])
  {
    ReplyLinesOfJoin(ls);
    DecimalRoundTrip(whole, frac);
  }

  /** A bare score comes with the stock explanation. */
  lemma RelevanceWithoutExplanation(n: nat)
    ensures ParseRelevance(NatToString(n)) == Relevance(n as real, "No explanation provided")
  {
    var d := NatToString(n);
    assert IsDigit(d[0]) && IsDigit(d[|d| - 1]);
    StripTrimmed(d);
    assert forall j :: 0 <= j < |d| ==> d[j] != '\n';
    SplitOnPiece(d, '\n');
    NatRoundTrip(n);
  }

  /** A first line with any character that cannot belong to a number scores 5
      and keeps the whole reply as explanation. */
  lemma RelevanceDefault(reply: string, i: int)
    requires 0 <= i < |Strip(ReplyLines(reply)[0])| && !NumberChar(Strip(ReplyLines(reply)[0])[i])
    ensures ParseRelevance(reply) == Relevance(5.0, reply)
  {
    NonNumericFails(ReplyLines(reply)[0], i);
  }

  // ---------------------------------------------------------------------------
  // Answer verification
  // ---------------------------------------------------------------------------

  /** Whether the answer is judged grounded, and the checker's comment. */
  datatype Verdict = Verdict(grounded: bool, feedback: string)

  /** `verify_answer`'s parse: grounded exactly when "yes" occurs anywhere in
      the lower-cased first line; the second line is the feedback. */
  function ParseVerdict(reply: string): (r: Verdict)
    ensures r.grounded <==> Occurs(Lower(ReplyLines(reply)[0]), "yes")
    ensures r.feedback == (if |ReplyLines(reply)| > 1 then ReplyLines(reply)[1] else "No feedback")
    ensures '\n' !in r.feedback
  {
    var lines := ReplyLines(reply);
    var first := Lower(lines[0]);
    var grounded := Contains(first, "yes");
    ContainsIffOccurs(first, "yes");
    Verdict(grounded, if |lines| > 1 then lines[1] else "No feedback")
  }

  /** A two-line reply: the verdict comes from the first line, the feedback is
      the second line verbatim. */
  lemma VerdictOfTwoLines(v: string, f: string)
    requires |v| > 0 && !IsSpace(v[0]) && '\n' !in v
    requires |f| > 0 && !IsSpace(f[|f| - 1]) && '\n' !in f
    ensures ParseVerdict(v + "\n" + f) == Verdict(Contains(Lower(v), "yes"), f)
  {
    var reply := v + "\n" + f;
    assert reply[0] == v[0];
    assert reply[|reply| - 1] == f[|f| - 1];
    StripTrimmed(reply);
    SplitOnPieceThenRest(v, '\n', f);
    assert reply == v + ['\n'] + f;
    SplitOnPiece(f, '\n');
    ContainsIffOccurs(Lower(v), "yes");
  }

  /** A reply of any number of lines: the verdict comes from the first line
      and the feedback is the second line alone, or the stock text when there
      is none. */
  lemma VerdictOfLines(ls: seq<string>)
    requires |ls| >= 1 && forall i :: 0 <= i < |ls| ==> '\n' !in ls[i]
    requires Trimmed(Join(ls, "\n"))
    ensures ParseVerdict(Join(ls, "\n"))
         == Verdict(Contains(Lower(ls[0]), "yes"), if |ls| > 1 then ls[1] else "No feedback")
  {
    ReplyLinesOfJoin(ls);
    ContainsIffOccurs(Lower(ls[0]), "yes");
  }

  /** A one-line reply: the verdict comes from that line and the feedback is
      the stock text. */
  lemma VerdictOfOneLine(v: string)
    requires |v| > 0 && !IsSpace(v[0]) && !IsSpace(v[|v| - 1]) && '\n' !in v
    ensures ParseVerdict(v) == Verdict(Contains(Lower(v), "yes"), "No feedback")
  {
    StripTrimmed(v);
    SplitOnPiece(v, '\n');
    ContainsIffOccurs(Lower(v), "yes");
  }

  /** A one-line reply whose lower-cased text has "yes" at some position is
      read as grounded. */
  lemma GroundedWhenYesAt(v: string, i: int)
    requires |v| > 0 && !IsSpace(v[0]) && !IsSpace(v[|v| - 1]) && '\n' !in v
    requires OccursAt(Lower(v), "yes", i)
    ensures ParseVerdict(v).grounded
  {
    VerdictOfOneLine(v);
    ContainsIffOccurs(Lower(v), "yes");
  }

  /** "YES" in capitals is read as grounded. */
  lemma UpperYesIsGrounded()
    ensures ParseVerdict("YES").grounded
  {
    var v := "YES";
    assert forall j :: 0 <= j < |v| ==> v[j] != '\n';
    assert Lower(v)[0] == 'y' && Lower(v)[1] == 'e' && Lower(v)[2] == 's';
    GroundedWhenYesAt(v, 0);
  }

  /** The match is a bare substring test: a one-line reply that starts with
      "NO" is still read as grounded when the letters "yes" occur later in it,
      inside another word or not (as in "NO, eyes"). */
  lemma NoContainingYesIsGrounded(a: string, b: string)
    requires '\n' !in a && '\n' !in b
    requires |b| == 0 || !IsSpace(b[|b| - 1])
    ensures ParseVerdict("NO" + a + "yes" + b).grounded
  {
    var v := "NO" + a + "yes" + b;
    var k := 2 + |a|;
    assert v[0] == 'N';
    assert v[|v| - 1] == if |b| == 0 then 's' else b[|b| - 1];
    assert '\n' !in "NO" && '\n' !in "yes";
    assert v[k] == 'y' && v[k + 1] == 'e' && v[k + 2] == 's';
    assert Lower(v)[k..k + 3] == "yes";
    GroundedWhenYesAt(v, k);
  }

  /** The verification step: the checker's verdict when enabled, otherwise
      grounded with the stock feedback. */
  function Verification(enabled: bool, reply: string): (r: Verdict)
    ensures !enabled ==> r == Verdict(true, "Verification skipped")
    ensures enabled ==> r == ParseVerdict(reply)
  {
    if enabled then ParseVerdict(reply) else Verdict(true, "Verification skipped")
  }

  // ---------------------------------------------------------------------------
  // Web search fallback
  // ---------------------------------------------------------------------------

  /** `result.get(key, default)` on one web-search result. */
  function Field(result: map<string, string>, key: string, default: string): string
  {
    if key in result then result[key] else default
  }

  /** One web result as a document, tagged as coming from web search and
      always carrying a url (empty when the result has none). */
  function WebDoc(result: map<string, string>): (d: Doc)
    ensures d.content == Field(result, "content", "")
    ensures "url" in d.metadata && "title" in d.metadata && "source" in d.metadata
    ensures Meta(d, "source", "") == "web_search"
    ensures Meta(d, "title", "") == Field(result, "title", "Web Result")
    ensures Meta(d, "url", "") == Field(result, "url", "")
    ensures "genre" !in d.metadata && "rating" !in d.metadata
  {
    Doc(Field(result, "content", ""),
        map["source" := "web_search",
            "title" := Field(result, "title", "Web Result"),
            "url" := Field(result, "url", ""),
            "search_engine" := "Tavily"])
  }

  /** `web_search_fallback`: one document per result in result order; a
      failing search gives no documents. */
  function WebSearchFallback(svc: Services, query: string): (r: seq<Doc>)
    ensures svc.webSearch(query).None? ==> r == []
    ensures svc.webSearch(query).Some? ==> |r| == |svc.webSearch(query).value|
    ensures svc.webSearch(query).Some? ==>
      forall i :: 0 <= i < |r| ==> r[i] == WebDoc(svc.webSearch(query).value[i])
    ensures forall i :: 0 <= i < |r| ==> Meta(r[i], "source", "") == "web_search" && "url" in r[i].metadata
  {
    match svc.webSearch(query)
    case None => []
    case Some(results) => MapSeq(results, WebDoc)
  }

  // ---------------------------------------------------------------------------
  // Strategy dispatch and fallback decision
  // ---------------------------------------------------------------------------

  /** `query_corrective`'s dispatch: a strategy's own name selects it, and any
      other string falls through to query expansion. */
  function CorrectiveStrategy(name: string): (s: Strategy)
    ensures forall t :: StrategyName(t) == name ==> s == t
    ensures !IsStrategyName(name) ==> s == Expansion
  {
    if name == "basic" then assert StrategyName(Basic) == name; Basic
    else if name == "hyde" then assert StrategyName(Hyde) == name; Hyde
    else if name == "multi_query" then assert StrategyName(Multi) == name; Multi
    else if name == "expansion" then assert StrategyName(Expansion) == name; Expansion
    else Expansion
  }

  /** The corrective and enhanced pipelines retrieve alike exactly for the
      four strategy names; for any other name one expands and the other does
      not. */
  lemma DispatchesAgree(name: string)
    ensures CorrectiveStrategy(name) == EnhancedStrategy(name) <==> IsStrategyName(name)
  {
    if IsStrategyName(name) {
      var t :| StrategyName(t) == name;
    }
  }

  /** The evidence the answer is generated from, and whether it came from the web. */
  datatype Evidence = Evidence(docs: seq<Doc>, usedWeb: bool)

  /** Step 3: web results replace the retrieved documents when the fallback is
      enabled, the score is strictly below the threshold, and the search
      returned something; otherwise the retrieved documents stay. */
  function Fallback(enabled: bool, score: real, local: seq<Doc>, web: seq<Doc>): (e: Evidence)
    ensures e.usedWeb <==> enabled && score < RelevanceThreshold && |web| > 0
    ensures e.usedWeb ==> e.docs == web
    ensures !e.usedWeb ==> e.docs == local
  {
    if enabled && score < RelevanceThreshold && |web| > 0 then Evidence(web, true)
    else Evidence(local, false)
  }

  /** A score at or above the threshold (7 included) never triggers the web. */
  lemma ThresholdKeepsLocal(enabled: bool, score: real, local: seq<Doc>, web: seq<Doc>)
    requires score >= RelevanceThreshold
    ensures Fallback(enabled, score, local, web) == Evidence(local, false)
  {
  }

  /** The decision is monotone in the score: a lower score falls back whenever
      a higher one does. */
  lemma FallbackMonotone(enabled: bool, lo: real, hi: real, local: seq<Doc>, web: seq<Doc>)
    requires lo <= hi
    ensures Fallback(enabled, hi, local, web).usedWeb ==> Fallback(enabled, lo, local, web).usedWeb
  {
  }

  // ---------------------------------------------------------------------------
  // The pipeline
  // ---------------------------------------------------------------------------

  /** The `metadata` dictionary of the response. */
  datatype CorrectiveMeta = CorrectiveMeta(strategy: string, relevanceScore: real,
                                           scoreExplanation: string, usedWebSearch: bool,
                                           isGrounded: bool, verificationFeedback: string,
                                           numSources: int)

  /** The dictionary `query_corrective` returns. */
  datatype CorrectiveResponse = CorrectiveResponse(question: string, answer: string,
                                                   sources: seq<SourceEntry>, metadata: CorrectiveMeta)

  /** Step 1: the documents the named strategy retrieves from the index. */
  function LocalDocs(svc: Services, question: string, strategy: string, k: int): seq<Doc>
  {
    RetrieveBy(svc, CorrectiveStrategy(strategy), question, k)
  }

  /** Step 2: the relevance of the retrieved documents. */
  function Score(svc: Services, question: string, docs: seq<Doc>): Relevance
  {
    ParseRelevance(svc.scoreReply(question, ScoreInput(docs)))
  }

  /** Steps 1 to 3: the evidence the answer is generated from. */
  function EvidenceFor(svc: Services, question: string, strategy: string, k: int, enableWeb: bool): (e: Evidence)
    ensures e.usedWeb ==> enableWeb && Score(svc, question, LocalDocs(svc, question, strategy, k)).score < RelevanceThreshold
    ensures e.usedWeb ==> |e.docs| > 0 && e.docs == WebSearchFallback(svc, question)
    ensures !e.usedWeb ==> e.docs == LocalDocs(svc, question, strategy, k)
    ensures (enableWeb && Score(svc, question, LocalDocs(svc, question, strategy, k)).score < RelevanceThreshold
             && |WebSearchFallback(svc, question)| > 0) ==> e.usedWeb
  {
    var local := LocalDocs(svc, question, strategy, k);
    Fallback(enableWeb, Score(svc, question, local).score, local, WebSearchFallback(svc, question))
  }

  /** `query_corrective`: the score is always that of the retrieved documents;
      the sources and the answer's context come from the documents actually
      used (web results after a fallback); verification, when enabled, judges
      the answer against that same context. Missing genre and rating read
      'N/A'. */
  function QueryCorrective(svc: Services, question: string, strategy: string, k: int,
                           enableWeb: bool, enableVerify: bool): (r: CorrectiveResponse)
    ensures r.question == question && r.metadata.strategy == strategy
    ensures r.metadata.relevanceScore == Score(svc, question, LocalDocs(svc, question, strategy, k)).score
    ensures r.metadata.scoreExplanation == Score(svc, question, LocalDocs(svc, question, strategy, k)).explanation
    ensures r.metadata.usedWebSearch ==> enableWeb && r.metadata.relevanceScore < RelevanceThreshold
    ensures (enableWeb && r.metadata.relevanceScore < RelevanceThreshold && |WebSearchFallback(svc, question)| > 0)
            ==> r.metadata.usedWebSearch
    ensures r.metadata.numSources == |r.sources|
    ensures r.metadata.usedWebSearch ==>
      |r.sources| > 0 && r.sources == SourcesOf(WebSearchFallback(svc, question), "N/A")
    ensures !r.metadata.usedWebSearch ==> r.sources == SourcesOf(LocalDocs(svc, question, strategy, k), "N/A")
    ensures var used := if r.metadata.usedWebSearch then WebSearchFallback(svc, question)
                        else LocalDocs(svc, question, strategy, k);
      r.answer == svc.answer(question, FormatDocs(used))
    ensures !enableVerify ==> r.metadata.isGrounded && r.metadata.verificationFeedback == "Verification skipped"
    ensures var used := if r.metadata.usedWebSearch then WebSearchFallback(svc, question)
                        else LocalDocs(svc, question, strategy, k);
      enableVerify ==> Verdict(r.metadata.isGrounded, r.metadata.verificationFeedback)
                       == ParseVerdict(svc.verifyReply(question, r.answer, FormatDocs(used)))
  {
    var local := LocalDocs(svc, question, strategy, k);
    var relevance := Score(svc, question, local);
    var evidence := EvidenceFor(svc, question, strategy, k, enableWeb);
    var context := FormatDocs(evidence.docs);
    var answer := svc.answer(question, context);
    var verdict := Verification(enableVerify, svc.verifyReply(question, answer, context));
    CorrectiveResponse(question, answer, SourcesOf(evidence.docs, "N/A"),
                       CorrectiveMeta(strategy, relevance.score, relevance.explanation, evidence.usedWeb,
                                      verdict.grounded, verdict.feedback, |evidence.docs|))
  }

  /** Sources reported after a fallback all name web search as their origin. */
  lemma WebSourcesAreTagged(svc: Services, question: string, strategy: string, k: int,
                            enableWeb: bool, enableVerify: bool)
    ensures var r := QueryCorrective(svc, question, strategy, k, enableWeb, enableVerify);
      r.metadata.usedWebSearch ==> forall i :: 0 <= i < |r.sources| ==> r.sources[i].source == "web_search"
  {
    var web := WebSearchFallback(svc, question);
    var s := SourcesOf(web, "N/A");
    assert forall i :: 0 <= i < |s| ==> s[i].source == Meta(web[i], "source", "Unknown");
    assert forall i :: 0 <= i < |web| ==> "source" in web[i].metadata && Meta(web[i], "source", "") == "web_search";
  }

  /** With the fallback off and a recognised strategy name, the corrective
      pipeline answers exactly as the enhanced one does. */
  lemma NoFallbackAnswersAsEnhanced(svc: Services, question: string, strategy: string, k: int, enableVerify: bool)
    requires IsStrategyName(strategy)
    ensures QueryCorrective(svc, question, strategy, k, false, enableVerify).answer
         == QueryEnhanced(svc, question, strategy, k).answer
  {
    DispatchesAgree(strategy);
  }
}
