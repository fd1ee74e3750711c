/** The enhanced pipeline (enhanced_rag.py): retrieval through a rewritten
    query, and the multi-query merge that searches with every variation and
    keeps the first document seen for each title. */
module EnhancedRag {
  import opened Base
  import opened Seqs
  import opened Text
  import opened Documents
  import opened Oracles
  import opened QueryEnhancement
  import opened BasicRag

  // ---------------------------------------------------------------------------
  // Strategies
  // ---------------------------------------------------------------------------

  /** The retrieval strategies a caller can name. */
  datatype Strategy = Basic | Hyde | Multi | Expansion

  /** The request string that names each strategy. */
  function StrategyName(s: Strategy): string
  {
    match s
    case Basic => "basic"
    case Hyde => "hyde"
    case Multi => "multi_query"
    case Expansion => "expansion"
  }

  /** A string that names some strategy. */
  predicate IsStrategyName(name: string)
  {
    exists t :: StrategyName(t) == name
  }

  /** `query_enhanced`'s dispatch: a strategy's own name selects it, and any
      other string falls through to basic retrieval. */
  function EnhancedStrategy(name: string): (s: Strategy)
    ensures forall t :: StrategyName(t) == name ==> s == t
    ensures !IsStrategyName(name) ==> s == Basic
  {
    if name == "hyde" then assert StrategyName(Hyde) == name; Hyde
    else if name == "multi_query" then assert StrategyName(Multi) == name; Multi
    else if name == "expansion" then assert StrategyName(Expansion) == name; Expansion
    else Basic
  }

  /** Distinct strategies have distinct names. */
  lemma StrategyNamesDistinct(s: Strategy, t: Strategy)
    requires s != t
    ensures StrategyName(s) != StrategyName(t)
  {
  }

  // ---------------------------------------------------------------------------
  // Single-query strategies
  // ---------------------------------------------------------------------------

  /** `retrieve_with_hyde`: search with the model's hypothetical answer. */
  function RetrieveWithHyde(svc: Services, query: string, k: int): seq<Doc>
  {
    svc.search(svc.hydeReply(query), k)
  }

  /** `retrieve_with_expansion`: search with the model's expanded query. */
  function RetrieveWithExpansion(svc: Services, query: string, k: int): seq<Doc>
  {
    svc.search(svc.expansionReply(query), k)
  }

  // ---------------------------------------------------------------------------
  // Multi-query retrieval
  // ---------------------------------------------------------------------------

  /** The queries `retrieve_with_multi_query` searches with: the original and
      up to three variations. */
  function Queries(svc: Services, query: string): (qs: seq<string>)
    ensures 1 <= |qs| <= 4 && qs[0] == query
  {
    MultiQuery(query, svc.variationsReply(query, 3), 3)
  }

  /** `max(2, k // n)`: each query's share of `k`, never below two. Python's
      `//` floors, which is what Dafny's `/` does for a positive divisor. */
  function PerQueryK(k: int, n: int): (r: int)
    requires n >= 1
    ensures r >= 2
    ensures r > 2 ==> r * n <= k < r * n + n
    ensures k >= 3 * n ==> r > 2
  {
    Max(2, k / n)
  }

  /** The per-query results in query order (`executor.map` keeps input order). */
  function SearchEach(search: (string, int) -> seq<Doc>, queries: seq<string>, perK: int): (r: seq<seq<Doc>>)
    ensures |r| == |queries|
    ensures forall i :: 0 <= i < |queries| ==> r[i] == search(queries[i], perK)
  {
    if |queries| == 0 then [] else [search(queries[0], perK)] + SearchEach(search, queries[1..], perK)
  }

  /** The title the merge keys on: `doc.metadata.get('title', '')`. */
  function Title(d: Doc): string
  {
    Meta(d, "title", "")
  }

  /** Position of the first document titled `t`, or `|docs|` when none is. */
  function FirstTitled(docs: seq<Doc>, t: string): (i: nat)
    ensures i <= |docs|
    ensures i < |docs| ==> Title(docs[i]) == t
    ensures forall j :: 0 <= j < i ==> Title(docs[j]) != t
  {
    if |docs| == 0 then 0
    else if Title(docs[0]) == t then 0
    else 1 + FirstTitled(docs[1..], t)
  }

  /** The merge loop: keep a document when its title is non-empty and not yet
      in `seen`, then add the title to `seen`. */
  function Dedup(docs: seq<Doc>, seen: set<string>): (r: seq<Doc>)
    ensures |r| <= |docs|
    ensures forall i :: 0 <= i < |r| ==> Title(r[i]) != "" && Title(r[i]) !in seen
    ensures IsSubsequence(r, docs)
  {
    if |docs| == 0 then []
    else
      var t := Title(docs[0]);
      if t != "" && t !in seen then [docs[0]] + Dedup(docs[1..], seen + {t})
      else Dedup(docs[1..], seen)
  }

  /** No two merged documents share a title (exact, case-sensitive match). */
  lemma {:induction false} DedupDistinct(docs: seq<Doc>, seen: set<string>)
    ensures forall i, j :: 0 <= i < j < |Dedup(docs, seen)| ==>
      Title(Dedup(docs, seen)[i]) != Title(Dedup(docs, seen)[j])
  {
    if |docs| > 0 {
      var t := Title(docs[0]);
      if t != "" && t !in seen {
        var rest := Dedup(docs[1..], seen + {t});
        DedupDistinct(docs[1..], seen + {t});
        var r := Dedup(docs, seen);
        assert r == [docs[0]] + rest;
        forall i, j | 0 <= i < j < |r| ensures Title(r[i]) != Title(r[j]) {
          if i == 0 {
            assert r[j] == rest[j - 1];
          } else {
            assert r[i] == rest[i - 1] && r[j] == rest[j - 1];
          }
        }
      } else {
        DedupDistinct(docs[1..], seen);
      }
    }
  }

  /** Every title that is non-empty and not in `seen` is represented. */
  lemma {:induction false} DedupComplete(docs: seq<Doc>, seen: set<string>, i: nat)
    requires i < |docs| && Title(docs[i]) != "" && Title(docs[i]) !in seen
    ensures exists j :: 0 <= j < |Dedup(docs, seen)| && Title(Dedup(docs, seen)[j]) == Title(docs[i])
  {
    var t := Title(docs[0]);
    var r := Dedup(docs, seen);
    if t != "" && t !in seen {
      var rest := Dedup(docs[1..], seen + {t});
      assert r == [docs[0]] + rest;
      if Title(docs[i]) == t {
        assert Title(r[0]) == Title(docs[i]);
      } else {
        assert docs[1..][i - 1] == docs[i];
        DedupComplete(docs[1..], seen + {t}, i - 1);
        var j :| 0 <= j < |rest| && Title(rest[j]) == Title(docs[i]);
        assert r[j + 1] == rest[j];
      }
    } else {
      assert i > 0;
      assert docs[1..][i - 1] == docs[i];
      DedupComplete(docs[1..], seen, i - 1);
    }
  }

  /** The first occurrence wins: each merged document is the first document
      of the input that carries its title. */
  lemma {:induction false} DedupFirstWins(docs: seq<Doc>, seen: set<string>)
    ensures forall j :: 0 <= j < |Dedup(docs, seen)| ==>
      FirstTitled(docs, Title(Dedup(docs, seen)[j])) < |docs| &&
      Dedup(docs, seen)[j] == docs[FirstTitled(docs, Title(Dedup(docs, seen)[j]))]
  {
    if |docs| > 0 {
      var t := Title(docs[0]);
      var r := Dedup(docs, seen);
      if t != "" && t !in seen {
        var rest := Dedup(docs[1..], seen + {t});
        DedupFirstWins(docs[1..], seen + {t});
        assert r == [docs[0]] + rest;
        forall j | 0 <= j < |r|
          ensures FirstTitled(docs, Title(r[j])) < |docs| && r[j] == docs[FirstTitled(docs, Title(r[j]))]
        {
          if j > 0 {
            assert r[j] == rest[j - 1];
            assert Title(r[j]) != t;
            assert FirstTitled(docs, Title(r[j])) == 1 + FirstTitled(docs[1..], Title(r[j]));
          }
        }
      } else {
        DedupFirstWins(docs[1..], seen);
        assert r == Dedup(docs[1..], seen);
        forall j | 0 <= j < |r|
          ensures FirstTitled(docs, Title(r[j])) < |docs| && r[j] == docs[FirstTitled(docs, Title(r[j]))]
        {
          assert Title(r[j]) != t;
          assert FirstTitled(docs, Title(r[j])) == 1 + FirstTitled(docs[1..], Title(r[j]));
        }
      }
    }
  }

  /** Everything the per-query searches return, in query order. */
  function Candidates(svc: Services, query: string, k: int): seq<Doc>
  {
    var queries := Queries(svc, query);
    Concat(SearchEach(svc.search, queries, PerQueryK(k, |queries|)))
  }

  /** The first `k` documents of the title-deduplicated merge of `cands`. */
  function TakeMerged(cands: seq<Doc>, k: int): (r: seq<Doc>)
    ensures k >= 0 ==> |r| == Min(k, |Dedup(cands, {})|)
    ensures k < 0 ==> |r| == Max(0, |Dedup(cands, {})| + k)
    ensures |r| <= |Dedup(cands, {})| && r == Dedup(cands, {})[..|r|]
    ensures forall i :: 0 <= i < |r| ==> Title(r[i]) != ""
    ensures forall i, j :: 0 <= i < j < |r| ==> Title(r[i]) != Title(r[j])
    ensures IsSubsequence(r, cands)
  {
    var merged := Dedup(cands, {});
    var r := SliceTo(merged, k);
    DedupDistinct(cands, {});
    SubsequenceOfPrefix(merged, cands, |r|);
    r
  }

  /** `retrieve_with_multi_query`: the first `k` documents of the title-deduplicated
      merge of all per-query results. */
  function RetrieveMultiQuery(svc: Services, query: string, k: int): (r: seq<Doc>)
    ensures k >= 0 ==> |r| == Min(k, |Dedup(Candidates(svc, query, k), {})|)
    ensures k < 0 ==> |r| == Max(0, |Dedup(Candidates(svc, query, k), {})| + k)
    ensures |r| <= |Dedup(Candidates(svc, query, k), {})|
    ensures r == Dedup(Candidates(svc, query, k), {})[..|r|]
    ensures forall i :: 0 <= i < |r| ==> Title(r[i]) != ""
    ensures forall i, j :: 0 <= i < j < |r| ==> Title(r[i]) != Title(r[j])
    ensures IsSubsequence(r, Candidates(svc, query, k))
  {
    TakeMerged(Candidates(svc, query, k), k)
  }

  // ---------------------------------------------------------------------------
  // Response
  // ---------------------------------------------------------------------------

  /** The documents the named strategy retrieves. */
  function RetrieveBy(svc: Services, s: Strategy, query: string, k: int): seq<Doc>
  {
    match s
    case Basic => Retrieve(svc.search, query, k)
    case Hyde => RetrieveWithHyde(svc, query, k)
    case Multi => RetrieveMultiQuery(svc, query, k)
    case Expansion => RetrieveWithExpansion(svc, query, k)
  }

  /** The dictionary `EnhancedRAG.query_enhanced` returns. */
  datatype EnhancedResponse = EnhancedResponse(question: string, strategy: string, answer: string,
                                               sources: seq<SourceEntry>, numSources: int)

  /** `EnhancedRAG.query_enhanced`: retrieve by the named strategy, answer from
      the formatted context, and report one source per document. */
  function QueryEnhanced(svc: Services, question: string, strategy: string, k: int): (r: EnhancedResponse)
    ensures r.question == question && r.strategy == strategy
    ensures r.numSources == |r.sources|
    ensures r.answer == svc.answer(question, FormatDocs(RetrieveBy(svc, EnhancedStrategy(strategy), question, k)))
    ensures |r.sources| == |RetrieveBy(svc, EnhancedStrategy(strategy), question, k)|
    ensures forall i :: 0 <= i < |r.sources| ==>
      r.sources[i] == SourceOf(RetrieveBy(svc, EnhancedStrategy(strategy), question, k)[i], "Unknown")
  {
    var docs := RetrieveBy(svc, EnhancedStrategy(strategy), question, k);
    EnhancedResponse(question, strategy, svc.answer(question, FormatDocs(docs)),
                     SourcesOf(docs, "Unknown"), |docs|)
  }

  /** An unrecognised strategy (or "basic") answers exactly as the basic
      pipeline's `query` does. */
  lemma UnknownStrategyIsBasic(svc: Services, question: string, strategy: string, k: int)
    requires !IsStrategyName(strategy) || strategy == "basic"
    ensures QueryEnhanced(svc, question, strategy, k).answer == Query(svc, question, k).answer
    ensures QueryEnhanced(svc, question, strategy, k).sources == Query(svc, question, k).sources
  {
    if strategy == "basic" {
      assert StrategyName(Basic) == strategy;
    }
  }
}
