/** The basic pipeline (basic_rag.py): actor-aware retrieval, the context
    block handed to the answer model, and the response envelope. */
module BasicRag {
  import opened Base
  import opened Seqs
  import opened Text
  import opened Ranking
  import opened Documents
  import opened Oracles

  // ---------------------------------------------------------------------------
  // Retrieval with term-count re-ranking
  // ---------------------------------------------------------------------------

  /** Words whose presence in the lower-cased query switches the re-rank on. */
  const ActorKeywords: seq<string> := ["movie", "film", "show", "starring", "actor", "with"]

  /** `any(keyword in query.lower() for keyword in actor_keywords)` */
  predicate MentionsActorKeyword(query: string)
  {
    exists i :: 0 <= i < |ActorKeywords| && Contains(Lower(query), ActorKeywords[i])
  }

  /** `sum(1 for term in terms if term in text)`: terms are counted with repetition. */
  function TermHits(terms: seq<string>, text: string): (n: nat)
    ensures n <= |terms|
  {
    if |terms| == 0 then 0
    else (if Contains(text, terms[0]) then 1 else 0) + TermHits(terms[1..], text)
  }

  /** The re-rank score of one candidate: how many whitespace-separated terms
      of the lower-cased query occur in its lower-cased content. */
  function Hits(query: string, d: Doc): nat
  {
    TermHits(Words(Lower(query)), Lower(d.content))
  }

  /** The score list the sort runs on, one entry per candidate. */
  function HitKeys(query: string, cands: seq<Doc>): (keys: seq<real>)
    ensures |keys| == |cands|
    ensures forall i :: 0 <= i < |cands| ==> keys[i] == Hits(query, cands[i]) as real
  {
    MapSeq(cands, d => Hits(query, d) as real)
  }

  /** The retrieval step after the index call: the first `k` candidates, or,
      when the query mentions an actor keyword, the first `k` after a stable
      descending sort on `Hits`. */
  function Rerank(query: string, cands: seq<Doc>, k: int): (r: seq<Doc>)
    ensures k >= 0 ==> |r| == Min(k, |cands|)
    ensures !MentionsActorKeyword(query) ==> r == SliceTo(cands, k)
    ensures MentionsActorKeyword(query) ==>
      forall i, j :: 0 <= i < j < |r| ==> Hits(query, r[i]) >= Hits(query, r[j])
    ensures multiset(r) <= multiset(cands)
  {
    if MentionsActorKeyword(query) then
      var keys := HitKeys(query, cands);
      var order := Rank(keys);
      var r := Select(cands, SliceTo(order, k));
      assert forall i, j :: 0 <= i < j < |r| ==> Before(keys, order[i], order[j]);
      SelectRankPermutes(cands, keys);
      SelectPrefix(cands, order, |r|);
      PrefixMultiset(Select(cands, order), |r|);
      r
    else
      PrefixMultiset(cands, |SliceTo(cands, k)|);
      SliceTo(cands, k)
  }

  lemma SelectPrefix<T>(xs: seq<T>, idx: seq<nat>, m: nat)
    requires forall i :: 0 <= i < |idx| ==> idx[i] < |xs|
    requires m <= |idx|
    ensures Select(xs, idx[..m]) == Select(xs, idx)[..m]
  {
  }

  lemma PrefixMultiset<T>(s: seq<T>, m: nat)
    requires m <= |s|
    ensures multiset(s[..m]) <= multiset(s)
  {
    assert s == s[..m] + s[m..];
  }

  /** The re-rank is the stable sort: any ordering of the candidate positions
      that puts higher scores first and keeps retrieval order among equal
      scores yields the same result. */
  lemma RerankIsStableSort(query: string, cands: seq<Doc>, k: int, order: seq<nat>)
    requires MentionsActorKeyword(query)
    requires Ranked(HitKeys(query, cands), order) && PositionsBelow(order, |cands|)
    ensures Rerank(query, cands, k) == Select(cands, SliceTo(order, k))
  {
    RankCharacterised(HitKeys(query, cands), order);
  }

  /** `BasicRAG.retrieve`: fetch `3k` candidates from the index, then re-rank
      and truncate to `k`. Every returned document is one of those candidates. */
  function Retrieve(search: (string, int) -> seq<Doc>, query: string, k: int): (r: seq<Doc>)
    ensures k >= 0 ==> |r| <= k
    ensures multiset(r) <= multiset(search(query, 3 * k))
  {
    Rerank(query, search(query, 3 * k), k)
  }

  /** No hit is counted for a term that does not occur, and every occurring
      term is counted: the count is the full list exactly when all terms occur
      and zero exactly when none does. */
  lemma {:induction false} TermHitsExtremes(terms: seq<string>, text: string)
    ensures TermHits(terms, text) == |terms| <==> forall i :: 0 <= i < |terms| ==> Contains(text, terms[i])
    ensures TermHits(terms, text) == 0 <==> forall i :: 0 <= i < |terms| ==> !Contains(text, terms[i])
  {
    if |terms| > 0 {
      TermHitsExtremes(terms[1..], text);
      assert forall i :: 1 <= i < |terms| ==> terms[i] == terms[1..][i - 1];
    }
  }

  // ---------------------------------------------------------------------------
  // Context formatting
  // ---------------------------------------------------------------------------

  /** The text between two document blocks. */
  const DocSeparator: string := "\n\n---\n\n"

  /** The first two lines of a document's block: its number (counted from 1)
      and its title, 'Unknown' when missing. */
  function TitleLines(i: nat, d: Doc): string
  {
    "Document " + (NatToString(i) + ":\nTitle: " + Meta(d, "title", "Unknown") + "\n")
  }

  /** The remaining labelled lines, up to `Content:`; missing metadata reads 'Unknown'. */
  function FieldLines(d: Doc): string
  {
    ("Source: " + Meta(d, "source", "Unknown")
     + "\nGenre: " + Meta(d, "genre", "Unknown")
     + "\nRating: " + Meta(d, "rating", "Unknown"))
    + "\nContent:"
  }

  /** The block for the `i`-th document: its labelled lines, then the content
      with trailing whitespace removed. */
  function DocBlock(i: nat, d: Doc): string
  {
    TitleLines(i, d) + FieldLines(d) + RStrip(" " + d.content + "\n")
  }

  /** `DocBlock` is exactly the source's f-string template for one document
      (leading newline, one field per line, trailing newline) after `.strip()`. */
  lemma DocBlockIsStrippedTemplate(i: nat, d: Doc)
    ensures DocBlock(i, d) == Strip("\n" + (TitleLines(i, d) + FieldLines(d)) + (" " + d.content + "\n"))
  {
    var t, f := TitleLines(i, d), FieldLines(d);
    ConcatFirst("Document ", NatToString(i) + ":\nTitle: " + Meta(d, "title", "Unknown") + "\n");
    ConcatFirst(t, f);
    ConcatLast("Source: " + Meta(d, "source", "Unknown")
               + "\nGenre: " + Meta(d, "genre", "Unknown")
               + "\nRating: " + Meta(d, "rating", "Unknown"), "\nContent:");
    ConcatLast(t, f);
    StripTemplate("\n", t + f, " " + d.content + "\n");
  }

  /** The blocks of `docs`, numbered from `first`. */
  function DocBlocks(docs: seq<Doc>, first: nat): (r: seq<string>)
    ensures |r| == |docs|
    ensures forall i :: 0 <= i < |docs| ==> r[i] == DocBlock(first + i, docs[i])
  {
    Numbered(docs, first, DocBlock)
  }

  /** `BasicRAG.format_docs` */
  function FormatDocs(docs: seq<Doc>): string
  {
    Join(DocBlocks(docs, 1), DocSeparator)
  }

  /** Each block opens with its number and the document's title. */
  lemma DocBlockHeader(i: nat, d: Doc)
    ensures IsPrefix("Document " + (NatToString(i) + ":\nTitle: " + Meta(d, "title", "Unknown") + "\n"),
                     DocBlock(i, d))
  {
    PrefixOfConcat(TitleLines(i, d), FieldLines(d) + RStrip(" " + d.content + "\n"));
    assert DocBlock(i, d) == TitleLines(i, d) + (FieldLines(d) + RStrip(" " + d.content + "\n"));
  }

  lemma {:induction false} JoinSnoc(parts: seq<string>, x: string, sep: string)
    requires |parts| > 0
    ensures Join(parts + [x], sep) == Join(parts, sep) + sep + x
    decreases |parts|
  {
    if |parts| == 1 {
      assert parts + [x] == [parts[0], x];
    } else {
      assert (parts + [x])[1..] == parts[1..] + [x];
      JoinSnoc(parts[1..], x, sep);
    }
  }

  lemma DocBlocksSnoc(docs: seq<Doc>, d: Doc)
    ensures DocBlocks(docs + [d], 1) == DocBlocks(docs, 1) + [DocBlock(|docs| + 1, d)]
  {
    NumberedSnoc(docs, d, 1, DocBlock);
  }

  /** The context grows one block at a time: appending a document appends the
      separator (when there was a block before) and its block, numbered by its
      position counted from 1; no documents give the empty context. */
  lemma FormatDocsSnoc(docs: seq<Doc>, d: Doc)
    ensures FormatDocs([]) == ""
    ensures FormatDocs(docs + [d]) ==
      (if |docs| == 0 then DocBlock(1, d)
       else FormatDocs(docs) + DocSeparator + DocBlock(|docs| + 1, d))
  {
    DocBlocksSnoc(docs, d);
    if |docs| > 0 {
      JoinSnoc(DocBlocks(docs, 1), DocBlock(|docs| + 1, d), DocSeparator);
    }
  }

  // ---------------------------------------------------------------------------
  // Response
  // ---------------------------------------------------------------------------

  /** The dictionary `BasicRAG.query` returns. */
  datatype BasicResponse = BasicResponse(question: string, answer: string,
                                         sources: seq<SourceEntry>, numSources: int)

  /** `BasicRAG.query`: retrieve, format, answer, and report one source per
      retrieved document in retrieval order. */
  function Query(svc: Services, question: string, k: int): (r: BasicResponse)
    ensures r.question == question
    ensures r.numSources == |r.sources|
    ensures |r.sources| == |Retrieve(svc.search, question, k)|
    ensures forall i :: 0 <= i < |r.sources| ==>
      r.sources[i] == SourceOf(Retrieve(svc.search, question, k)[i], "Unknown")
    ensures r.answer == svc.answer(question, FormatDocs(Retrieve(svc.search, question, k)))
  {
    var docs := Retrieve(svc.search, question, k);
    var answer := svc.answer(question, FormatDocs(docs));
    BasicResponse(question, answer, SourcesOf(docs, "Unknown"), |docs|)
  }

  /** `BasicRAG.query_simple`: the answer alone. */
  function QuerySimple(svc: Services, question: string, k: int): (a: string)
    ensures a == svc.answer(question, FormatDocs(Retrieve(svc.search, question, k)))
  {
    Query(svc, question, k).answer
  }
}
