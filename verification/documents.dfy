/** The evidence unit every stage passes around, and the per-document source
    entry that responses report. */
module Documents {
  import opened Seqs

  /** A LangChain `Document`: page content plus string-valued metadata. */
  datatype Doc = Doc(content: string, metadata: map<string, string>)

  /** `doc.metadata.get(key, default)` */
  function Meta(d: Doc, key: string, default: string): string
  {
    if key in d.metadata then d.metadata[key] else default
  }

  /** One element of a response's `sources` list. */
  datatype SourceEntry = SourceEntry(title: string, source: string, genre: string, rating: string)

  /** The source entry of one document. Title and source fall back to
      'Unknown'; genre and rating fall back to `missing`, which is 'Unknown' in
      the basic and enhanced pipelines and 'N/A' in the corrective one. */
  function SourceOf(d: Doc, missing: string): SourceEntry
  {
    SourceEntry(Meta(d, "title", "Unknown"), Meta(d, "source", "Unknown"),
                Meta(d, "genre", missing), Meta(d, "rating", missing))
  }

  /** `[{title, source, genre, rating} for doc in docs]`: one entry per
      document, in document order. */
  function SourcesOf(docs: seq<Doc>, missing: string): (r: seq<SourceEntry>)
    ensures |r| == |docs|
    ensures forall i :: 0 <= i < |docs| ==> r[i].title == Meta(docs[i], "title", "Unknown")
    ensures forall i :: 0 <= i < |docs| ==> r[i].source == Meta(docs[i], "source", "Unknown")
    ensures forall i :: 0 <= i < |docs| ==> r[i].genre == Meta(docs[i], "genre", missing)
    ensures forall i :: 0 <= i < |docs| ==> r[i].rating == Meta(docs[i], "rating", missing)
  {
    MapSeq(docs, d => SourceOf(d, missing))
  }
}

/** The opaque collaborators of the pipeline. Each model, index or search call
    is an uninterpreted function of exactly the values the source feeds it, so
    its replies are unconstrained. */
module Oracles {
  import opened Base
  import opened Documents

  datatype Services = Services(
    /** `vector_store.similarity_search(text, k)` */
    search: (string, int) -> seq<Doc>,
    /** `generate_answer(question, context)`: the answer model's reply. */
    answer: (string, string) -> string,
    /** `QueryEnhancer.hyde(query)`: the hypothetical-answer model's reply. */
    hydeReply: string -> string,
    /** The multi-query model's raw reply for `(query, num_variations)`. */
    variationsReply: (string, int) -> string,
    /** `QueryEnhancer.expand_query(query)`: the expansion model's reply. */
    expansionReply: string -> string,
    /** The relevance scorer's raw reply for `(query, docs_text)`. */
    scoreReply: (string, string) -> string,
    /** The fact checker's raw reply for `(question, answer, context)`. */
    verifyReply: (string, string, string) -> string,
    /** Tavily `search(query, max_results=5)`: the `results` list, or `None`
        when the call raises. Each result is a dict of string fields. */
    webSearch: string -> Option<seq<map<string, string>>>
  )
}
