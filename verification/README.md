# Movie RAG service — a Dafny model of its deterministic core

The service answers movie and TV questions by retrieving documents from a
vector index, asking a chat model, and optionally correcting itself: a scorer
model rates the evidence, weak evidence is replaced by web search results,
and a checker model judges whether the answer is grounded. A compare
endpoint runs the database pipeline and a web pipeline side by side and mixes
their suggestions.

Every call to a model, the index or the web search is an uninterpreted
function: a field of `Oracles.Services`, or for the two extra model calls of
the compare endpoint (combining the answers, extracting titles) a function
parameter. What is modelled is everything around those calls:

- **Parsers of model replies**:
  - the relevance score (`CorrectiveRag.ParseRelevance`);
  - the grounding verdict (`CorrectiveRag.ParseVerdict`);
  - the multi-query variations (`QueryEnhancement.MultiQuery`);
  - the rating text of a suggestion (`Suggestions.ParseRating`);
  - the title list of the compare endpoint (`CompareTitles.ExtractTitles`).
- **Retrieval post-processing**:
  - the keyword-gated, stable, term-count re-rank (`BasicRag.Rerank`);
  - the multi-query merge with first-wins title deduplication (`EnhancedRag.RetrieveMultiQuery`).
- **Orchestration**:
  - strategy dispatch in the enhanced and corrective pipelines, which differ on unknown names;
  - the strict-threshold web fallback that replaces the retrieved documents;
  - the defaults used when verification is off;
  - the response envelopes of the basic, enhanced, corrective and compare pipelines.
- **Suggestions**:
  - the rating filter, exact-title dedup, cap and stable descending sort (`Suggestions.GetMovieSuggestions`);
  - the compare endpoint's case-insensitive three-loop mix, capped at five (`CompareMix.Mix`);
  - its score bands (`Compare.BandOf`).
- **Serialisers**:
  - the context block handed to the answer model (`BasicRag.FormatDocs`);
  - the four CSV row → document mappers and the combined load (`DocumentLoader`).

Python behaviour the core relies on is written out explicitly:
- `str.strip`, `split('\n')` and `split()` use `str.isspace`;
- `s[:e]` keeps Python's meaning for negative `e`;
- `//` floors;
- `list.sort(reverse=True)` is stable; `Ranking` gives the unique stable order, and lemmas show any other stable ordering is the same;
- `float()` on ASCII decimal text, read as the exact number it spells;
- `lower()` on ASCII letters.

Modules:

| module | file | contents |
|---|---|---|
| `Base` | base.dfy | `Option`, `Result`, the thresholds of config.py |
| `Seqs`, `Text` | seqs.dfy, text.dfy | Python slicing, joining, splitting, stripping, `in`, `lower`, `str(n)`, `float` |
| `Ranking` | ranking.dfy | the stable descending sort as a ranking of positions |
| `Documents`, `Oracles` | documents.dfy | `Doc`, source entries, the external services |
| `BasicRag` | basic_rag.dfy | basic_rag.py |
| `QueryEnhancement` | query_enhancement.dfy | query_enhancement.py |
| `EnhancedRag` | enhanced_rag.dfy | enhanced_rag.py |
| `CorrectiveRag` | corrective_rag.dfy | corrective_rag.py up to `query_corrective` |
| `Suggestions` | suggestions.dfy | `get_movie_suggestions` |
| `CompareTitles`, `CompareMix`, `Compare` | compare_titles.dfy, compare_mix.dfy, compare.dfy | `search_compare` in main.py |
| `DocumentLoader` | document_loader.dfy | document_loader.py |

Where the code and its own comments disagree, the model follows the code:

- The web fallback triggers only when the score is strictly below 7.0. The comment at config.py:49 says a score of at least 7 triggers it.
- Suggestions need a rating of at least 5.0, the value in config.py. The docstring of `get_movie_suggestions` says 6.5.

Three facts about the code that the model keeps as they are:

- Web results replace the retrieved documents outright (`docs = web_docs`, backend/src/rag/corrective_rag.py:265-267). They are not merged with or prepended to them.
- The fallback runs at most once, and the score alone decides it (backend/src/rag/corrective_rag.py:259). No second retrieval or refinement loop follows, and the number of documents plays no part.
- The multi-query merge compares titles exactly and case-sensitively (backend/src/rag/enhanced_rag.py:104-108). Only the compare endpoint's mix lower-cases titles.

The grounding verdict is a bare substring test on the lower-cased first line,
so "NO, eyes …" is read as grounded (`CorrectiveRag.NoContainingYesIsGrounded`).
The model states this as what the code does.

## Model

| member | source | states |
|---|---|---|
| CorrectiveRag.ScoreInputSees | backend/src/rag/corrective_rag.py:67-70 | the scorer's input depends only on the first three documents and the first 200 characters of each |
| CorrectiveRag.ScoreInputEmpty | backend/src/rag/corrective_rag.py:67-70 | with no documents the scorer is given the empty string |
| CorrectiveRag.ReplyLines | backend/src/rag/corrective_rag.py:96 | a stripped reply split on newlines has at least one line and no line holds a newline |
| CorrectiveRag.ParseRelevance | backend/src/rag/corrective_rag.py:96-102 | an unparsable first line gives score 5.0 with the whole raw reply as explanation; a parsable one gives exactly its number, unclamped, with line 2 as explanation or "No explanation provided" when there is no line 2 |
| CorrectiveRag.RelevanceRoundTrip | backend/src/rag/corrective_rag.py:96-99 | a reply "n\nexplanation" reads back as score n with that explanation |
| CorrectiveRag.ReplyLinesOfJoin | backend/src/rag/corrective_rag.py:96 | newline-free lines joined by newlines, with no surrounding whitespace, split back into exactly those lines |
| CorrectiveRag.RelevanceOfLines | backend/src/rag/corrective_rag.py:96-99 | a reply of two or more lines whose first line is "w.f" scores the decimal w.f and takes line 2 alone as explanation, as for "8.5\nGood\nmore" |
| CorrectiveRag.RelevanceWithoutExplanation | backend/src/rag/corrective_rag.py:96-99 | a bare number reads back with "No explanation provided" |
| CorrectiveRag.RelevanceDefault | backend/src/rag/corrective_rag.py:97-102 | a first line containing any non-numeric character falls back to (5.0, reply) |
| CorrectiveRag.ParseVerdict | backend/src/rag/corrective_rag.py:198-200 | grounded if and only if "yes" occurs in the lower-cased first line; the feedback is line 2, or "No feedback" when there is no line 2 |
| CorrectiveRag.VerdictOfTwoLines | backend/src/rag/corrective_rag.py:198-200 | for a two-line reply the verdict comes from line 1 and the feedback is line 2 verbatim |
| CorrectiveRag.VerdictOfLines | backend/src/rag/corrective_rag.py:198-200 | for a reply of any number of lines the verdict comes from line 1 and the feedback is line 2 alone, or "No feedback" for one line |
| CorrectiveRag.VerdictOfOneLine | backend/src/rag/corrective_rag.py:198-200 | a one-line reply gets the feedback "No feedback" |
| CorrectiveRag.GroundedWhenYesAt | backend/src/rag/corrective_rag.py:199 | "yes" at any position of the lower-cased line makes the answer grounded |
| CorrectiveRag.UpperYesIsGrounded | backend/src/rag/corrective_rag.py:199 | "YES" is read as grounded |
| CorrectiveRag.NoContainingYesIsGrounded | backend/src/rag/corrective_rag.py:199 | a line starting with "NO" that contains the letters "yes" anywhere is still read as grounded |
| CorrectiveRag.Verification | backend/src/rag/corrective_rag.py:280-291 | verification off gives grounded with "Verification skipped"; on gives the parsed verdict |
| CorrectiveRag.WebDoc | backend/src/rag/corrective_rag.py:134-142 | a web result becomes a document tagged "web_search", with title defaulting to 'Web Result', url to '' and content to '', and no genre or rating |
| CorrectiveRag.WebSearchFallback | backend/src/rag/corrective_rag.py:123-150 | a failing search gives no documents; otherwise one document per result, in result order, each tagged web_search with a url |
| CorrectiveRag.CorrectiveStrategy | backend/src/rag/corrective_rag.py:239-248 | each strategy name selects its strategy, and any other string selects expansion |
| CorrectiveRag.DispatchesAgree | backend/src/rag/corrective_rag.py:239-248 | the corrective and enhanced dispatches agree exactly on the four strategy names |
| CorrectiveRag.Fallback | backend/src/rag/corrective_rag.py:256-270 | web is used if and only if the fallback is enabled, the score < 7.0 and the web returned something; web docs then replace the local ones, and otherwise the local docs stay |
| CorrectiveRag.ThresholdKeepsLocal | backend/src/rag/corrective_rag.py:259 | a score of 7.0 or more never triggers the web |
| CorrectiveRag.FallbackMonotone | backend/src/rag/corrective_rag.py:259 | if a score falls back, every lower score does too |
| CorrectiveRag.EvidenceFor | backend/src/rag/corrective_rag.py:237-270 | web results are used if and only if the fallback is enabled, the local score is below 7.0 and the web returned documents; they then replace the local documents, otherwise the retrieved documents are kept |
| CorrectiveRag.QueryCorrective | backend/src/rag/corrective_rag.py:204-321 | echoes question and strategy; reports the score and explanation of the retrieved documents; used_web_search in both directions of the fallback rule; the answer is generated from the formatted documents actually used; one source per used document with 'N/A' defaults, num_sources their count; verification off gives (True, "Verification skipped"), on gives the verdict on that answer against the same context |
| CorrectiveRag.WebSourcesAreTagged | backend/src/rag/corrective_rag.py:294-305 | after a fallback every reported source is "web_search" |
| CorrectiveRag.NoFallbackAnswersAsEnhanced | backend/src/rag/corrective_rag.py:237-277 | with the fallback off and a known strategy, the answer equals `query_enhanced`'s |
| Suggestions.ParseRating | backend/src/rag/corrective_rag.py:355-358 | the number read from the text before the first '/', and 0.0 when that text does not parse; a non-zero rating comes from numeric text |
| Suggestions.RatingOutOfTen | backend/src/rag/corrective_rag.py:354-358 | "n/10" reads as n |
| Suggestions.RatingDecimalOutOfTen | backend/src/rag/corrective_rag.py:354-358 | "w.f/10" reads as the decimal number w.f |
| Suggestions.RatingExample | backend/src/rag/corrective_rag.py:354-358 | "7.5/10" reads as 7.5 |
| Suggestions.RatingTwoPointsIsZero | backend/src/rag/corrective_rag.py:355-358 | a rating with two decimal points before the first '/' (such as "7.5.1/10") reads as 0.0 |
| Suggestions.RatingWithoutDigitIsZero | backend/src/rag/corrective_rag.py:355-358 | a rating with no digit before the first '/' (such as "-" or "N/A") reads as 0.0 |
| Suggestions.RatingPlain | backend/src/rag/corrective_rag.py:354-358 | "n" reads as n |
| Suggestions.BlankRatingIsZero | backend/src/rag/corrective_rag.py:355-358 | a blank rating (a NaN cell loaded as "") reads as 0.0 |
| Suggestions.Proposal | backend/src/rag/corrective_rag.py:351-367 | a suggestion's title defaults to 'Unknown', genre to 'N/A', source to 'Unknown'; its rating is parsed from the rating with default '0'; its year is metadata['year'] when present, else release_year, else 'N/A' |
| Suggestions.Proposals | backend/src/rag/corrective_rag.py:347-367 | one proposal per document, in document order |
| Suggestions.Collect | backend/src/rag/corrective_rag.py:344-369 | at most the requested number; every kept one has an unseen title and a rating ≥ 5.0; titles are distinct; kept in retrieval order |
| Suggestions.CollectComplete | backend/src/rag/corrective_rag.py:347-369 | if the loop never fills up, every acceptable proposal's title is represented |
| Suggestions.CollectFirstWins | backend/src/rag/corrective_rag.py:347-369 | the first occurrence wins: each kept suggestion is the first proposal with its title and a rating at the bar, since `seen_titles` grows only on acceptance |
| Suggestions.CollectFirstCome | backend/src/rag/corrective_rag.py:347-369 | first come, first kept: with n places the loop keeps the first n of what it would keep with unlimited room |
| Suggestions.CollectPrefix | backend/src/rag/corrective_rag.py:347-369 | less room keeps a prefix of what more room keeps |
| Suggestions.CollectRoomBeyond | backend/src/rag/corrective_rag.py:347-369 | room beyond the number of documents changes nothing |
| Suggestions.SortByRating | backend/src/rag/corrective_rag.py:372 | a permutation, ratings non-increasing, distinct titles stay distinct |
| Suggestions.RankSortsRatings | backend/src/rag/corrective_rag.py:372 | the ranked order puts better ratings first |
| Suggestions.RankKeepsDistinctTitles | backend/src/rag/corrective_rag.py:372 | reordering does not create duplicate titles |
| Suggestions.PermutationKeepsRatingBar | backend/src/rag/corrective_rag.py:361 | rearranging keeps the rating bar |
| Suggestions.SortIsStable | backend/src/rag/corrective_rag.py:372 | any best-first ordering that keeps retrieval order among equal ratings is the sort's result |
| Suggestions.GetMovieSuggestions | backend/src/rag/corrective_rag.py:323-374 | at most n suggestions, all rated ≥ 5.0, pairwise distinct titles, sorted by rating descending, a permutation of what the loop collected, and equal to every stable best-first order of it, so ties keep retrieval order |
| BasicRag.TermHits | backend/src/rag/basic_rag.py:93 | the count never exceeds the number of query terms |
| BasicRag.TermHitsExtremes | backend/src/rag/basic_rag.py:93 | the count is all terms exactly when every term occurs, and 0 exactly when none does |
| BasicRag.HitKeys | backend/src/rag/basic_rag.py:89-94 | one score per candidate, the candidate's term-hit count |
| BasicRag.Rerank | backend/src/rag/basic_rag.py:78-100 | length min(k, candidates); without an actor keyword it is the first k candidates; with one, scores are non-increasing; never invents or duplicates a document |
| BasicRag.RerankIsStableSort | backend/src/rag/basic_rag.py:97-98 | the re-rank equals any stable best-first ordering cut to k |
| BasicRag.Retrieve | backend/src/rag/basic_rag.py:62-100 | at most k documents, all drawn from the 3k fetched |
| BasicRag.DocBlocks | backend/src/rag/basic_rag.py:114-128 | one block per document, numbered from 1 in order |
| BasicRag.DocBlockIsStrippedTemplate | backend/src/rag/basic_rag.py:120-128 | the block equals the stripped template |
| BasicRag.DocBlockHeader | backend/src/rag/basic_rag.py:120-122 | each block opens with "Document i:" and the title line, 'Unknown' when missing |
| BasicRag.FormatDocsSnoc | backend/src/rag/basic_rag.py:112-130 | no documents give ""; appending a document appends the separator (when not first) and its numbered block |
| BasicRag.Query | backend/src/rag/basic_rag.py:153-194 | echoes the question; one 'Unknown'-defaulted source per retrieved document in order; num_sources = their count; the answer is the model's reply on the formatted retrieved documents |
| BasicRag.QuerySimple | backend/src/rag/basic_rag.py:196-208 | the answer is the model's reply to the formatted retrieved context |
| EnhancedRag.EnhancedStrategy | backend/src/rag/enhanced_rag.py:163-170 | each strategy name selects its strategy, and any other string selects basic |
| EnhancedRag.Queries | backend/src/rag/enhanced_rag.py:83 | one to four queries, the original first |
| EnhancedRag.PerQueryK | backend/src/rag/enhanced_rag.py:87 | at least 2; above 2 it is k floor-divided by the query count; it exceeds 2 once k ≥ 3 × count |
| EnhancedRag.SearchEach | backend/src/rag/enhanced_rag.py:89-96 | one result list per query, in query order |
| EnhancedRag.Dedup | backend/src/rag/enhanced_rag.py:99-107 | keeps documents with non-empty unseen titles, as a subsequence of the input |
| EnhancedRag.DedupDistinct | backend/src/rag/enhanced_rag.py:100-107 | merged titles are pairwise distinct (exact match) |
| EnhancedRag.DedupComplete | backend/src/rag/enhanced_rag.py:102-107 | every non-empty title of the input is represented |
| EnhancedRag.DedupFirstWins | backend/src/rag/enhanced_rag.py:102-107 | each kept document is the first input document with its title |
| EnhancedRag.TakeMerged | backend/src/rag/enhanced_rag.py:98-110 | `all_docs[:k]`: exactly min(k, number merged) documents for k ≥ 0 (Python's negative-slice length otherwise), a prefix of the dedup, titles non-empty and distinct, a subsequence of the candidates |
| EnhancedRag.RetrieveMultiQuery | backend/src/rag/enhanced_rag.py:62-110 | the same, over the concatenated per-query results |
| EnhancedRag.QueryEnhanced | backend/src/rag/enhanced_rag.py:138-198 | echoes question and strategy; the answer is the model's reply on the formatted retrieved documents; one source per retrieved document; num_sources = their count |
| EnhancedRag.UnknownStrategyIsBasic | backend/src/rag/enhanced_rag.py:169-170 | an unknown strategy or "basic" answers exactly like `BasicRAG.query` |
| QueryEnhancement.NonEmpty | backend/src/rag/query_enhancement.py:120 | keeps exactly the non-empty strings, in order |
| QueryEnhancement.StripAll | backend/src/rag/query_enhancement.py:120 | each line stripped, one per line |
| QueryEnhancement.Variations | backend/src/rag/query_enhancement.py:120 | every variation is trimmed and non-blank, in reply order |
| QueryEnhancement.NonEmptyTrimmed | backend/src/rag/query_enhancement.py:120 | filtering keeps lines trimmed |
| QueryEnhancement.NonEmptyKeeps | backend/src/rag/query_enhancement.py:120 | lines that are all non-empty are all kept |
| QueryEnhancement.NonEmptySkipsBlank | backend/src/rag/query_enhancement.py:120 | a blank line contributes nothing wherever it stands |
| QueryEnhancement.StripTrimmedLines | backend/src/rag/query_enhancement.py:120 | already-trimmed lines are left alone |
| QueryEnhancement.VariationsOfLines | backend/src/rag/query_enhancement.py:120 | a reply of trimmed non-empty lines reads back as exactly those lines |
| QueryEnhancement.QueriesFrom | backend/src/rag/query_enhancement.py:123-125 | the original first, then the variations, min(n, number of variations) + 1 entries |
| QueryEnhancement.MultiQuery | backend/src/rag/query_enhancement.py:77-125 | between 1 and n+1 entries, the original first, the rest a prefix of the reply's variations |
| QueryEnhancement.MultiQueryOfLines | backend/src/rag/query_enhancement.py:116-125 | a reply of exactly n good lines, asked for n, yields the query followed by all n |
| Compare.BandOf | backend/src/api/main.py:244-269 | ≥ 8.5 prefers the database, 7.0 to 8.5 balanced, below 7.0 prefers the web (each if and only if) |
| Compare.BandMonotone | backend/src/api/main.py:244-269 | a higher score never trusts the database less |
| Compare.PreferWebIsBelowThreshold | backend/src/api/main.py:261-268 | the web-preferring band is exactly the corrective fallback range |
| Compare.RunWeb | backend/src/api/main.py:210-225 | no web docs gives (None, []); otherwise the answer model's reply on the web context and sources from the first five documents |
| Compare.WebSourceIsUrl | backend/src/api/main.py:219-223 | a reported web source is the result's url; the 'Tavily' default is unreachable |
| Compare.FinalAnswer | backend/src/api/main.py:244-272 | a falsy web answer keeps the database answer; otherwise the combining model's reply for the band |
| Compare.RagHalf | backend/src/api/main.py:334-338 | the answer, the first three sources, and the untruncated source count |
| Compare.WebHalf | backend/src/api/main.py:339-343 | a missing web answer becomes ""; all web sources and their count |
| Compare.WebPicksOf | backend/src/api/main.py:278-303 | no web picks without a truthy web answer; at most five |
| Compare.MixedPicks | backend/src/api/main.py:305-330 | the first five of the case-insensitive first-occurrence dedup of database picks 1-3, then web picks 1-2, then the remaining database picks; hence at most five with distinct titles, and without a usable web answer just the first five distinct database picks |
| Compare.Respond | backend/src/api/main.py:235-346 | the query; the database answer, its first three sources and full count; the web answer ("" when none) with all its sources and their count; the combined answer by band, or the database answer without a usable web answer; the suggestions are exactly the mixed picks |
| Compare.SearchCompare | backend/src/api/main.py:180-346 | database count from the multi-query pipeline, web sources from `run_web`, at most five suggestions |
| CompareTitles.LStripChar | backend/src/api/main.py:289 | a suffix of the input that no longer starts with the character |
| CompareTitles.CleanTitle | backend/src/api/main.py:289 | the cleaned title is trimmed |
| CompareTitles.DashBulletRemoved | backend/src/api/main.py:289 | "- title" cleans to the title |
| CompareTitles.StarThenDashKeepsDash | backend/src/api/main.py:289 | "*-title" keeps its dash: the bullets are stripped in a fixed order |
| CompareTitles.KeepTitles | backend/src/api/main.py:288-292 | no more titles than lines, all trimmed |
| CompareTitles.ShortLineSkipped | backend/src/api/main.py:291 | a line of at most three stripped characters gives no title |
| CompareTitles.LongLineKept | backend/src/api/main.py:288-291 | a longer line gives its cleaned title ahead of the rest |
| CompareTitles.ExtractTitles | backend/src/api/main.py:287-292 | every extracted title is trimmed |
| CompareMix.WebPicks | backend/src/api/main.py:295-303 | at most five, each a non-empty title with the fixed web fields |
| CompareMix.WebPicksOfTitles | backend/src/api/main.py:295-303 | non-empty titles give one pick each for the first five |
| CompareMix.WebPicksSkipsEmpty | backend/src/api/main.py:295-303 | an empty title among the first five takes no place |
| CompareMix.DedupLower | backend/src/api/main.py:310-314 | the reference order: picks with unseen lower-cased titles, drawn from the input |
| CompareMix.DedupLowerDistinct | backend/src/api/main.py:307-330 | no two kept picks share a title up to case |
| CompareMix.DedupLowerInOrder | backend/src/api/main.py:307-330 | kept picks appear in input order |
| CompareMix.DedupLowerCovers | backend/src/api/main.py:307-330 | every unseen title is represented |
| CompareMix.MixLoopUncapped | backend/src/api/main.py:310-321 | an uncapped loop appends the reference order and records every title |
| CompareMix.MixLoopCapped | backend/src/api/main.py:324-330 | the capped loop appends the reference order up to five |
| CompareMix.MixIsCappedDedup | backend/src/api/main.py:305-345 | the mix is the first five of the deduplicated database[:3] + web[:2] + database[3:] |
| CompareMix.MixWithoutWeb | backend/src/api/main.py:305-345 | without web picks the mix is the first five deduplicated database picks |
| CompareMix.MixShape | backend/src/api/main.py:305-345 | at most five, distinct up to case, and opens with the deduplicated top three database picks |
| DocumentLoader.Val | backend/src/utils/document_loader.py:42 | a NaN cell reads as "" and a present cell as its text |
| DocumentLoader.FirstMissing | backend/src/utils/document_loader.py:46-70 | none if and only if every column is present; otherwise the first missing column in read order |
| DocumentLoader.ContentOpensWith | backend/src/utils/document_loader.py:49-57 | the stripped template opens with its first labelled line and a newline |
| DocumentLoader.ContentIsBody | backend/src/utils/document_loader.py:49-57 | when the last line ends visibly, strip removes exactly the template framing |
| DocumentLoader.Tagged | backend/src/utils/document_loader.py:60-70 | source, title, genre and rating carry the given values, and other entries are kept |
| DocumentLoader.NetflixDoc | backend/src/utils/document_loader.py:46-72 | succeeds if and only if every read column exists; tagged "netflix"; title from title, genre from listed_in, rating from rating; content opens "Title: " + title |
| DocumentLoader.TvDoc | backend/src/utils/document_loader.py:90-115 | the same for "tv_shows", genre from genre |
| DocumentLoader.ImdbDoc | backend/src/utils/document_loader.py:133-157 | the same for "imdb_indian", title from Name |
| DocumentLoader.NewImdbDoc | backend/src/utils/document_loader.py:175-201 | the same for "new_imdb" |
| DocumentLoader.TitleLineOpens | backend/src/utils/document_loader.py:49-50 | every template opens with its title line |
| DocumentLoader.TitleLineText | backend/src/utils/document_loader.py:50 | the title line is "Title: " followed by the title |
| DocumentLoader.Load | backend/src/utils/document_loader.py:44-74 | success if and only if every row succeeds: then one document per row, in order; otherwise the first failing row's error |
| DocumentLoader.LoadTags | backend/src/utils/document_loader.py:60-72 | every document of a successful load carries the loader's tag |
| DocumentLoader.LoadAll | backend/src/utils/document_loader.py:205-240 | success if and only if all three files load; Netflix then TV then IMDB documents; otherwise the error of the first failing file in that order, for each of the three |
| DocumentLoader.ConcatLayout | backend/src/utils/document_loader.py:218-236 | three loads laid end to end keep each row's document at its offset |
| DocumentLoader.LoadAllLayout | backend/src/utils/document_loader.py:218-240 | the total equals the sum of rows, and each row's document sits at its offset |
| DocumentLoader.SourcesByRange | backend/src/utils/document_loader.py:218-236 | source tags by position: netflix, then tv_shows, then imdb_indian |
| DocumentLoader.LoadAllSources | backend/src/utils/document_loader.py:205-240 | the same for the combined load, and no document is tagged new_imdb |
| Documents.SourcesOf | backend/src/rag/basic_rag.py:182-191 | one source entry per document, in order, each field taken from metadata with its default |
| Text.Strip | backend/src/rag/corrective_rag.py:96 | the result is trimmed and no longer than the input |
| Text.StripStrip | backend/src/rag/corrective_rag.py:98 | stripping twice is stripping once |
| Text.SplitOn | backend/src/rag/corrective_rag.py:96 | split on a separator gives at least one piece and no piece holds the separator |
| Text.SplitOnJoin | backend/src/rag/corrective_rag.py:96 | joining the pieces back gives the input |
| Text.JoinSplitOn | backend/src/rag/query_enhancement.py:120 | splitting joined separator-free pieces gives them back |
| Text.Words | backend/src/rag/basic_rag.py:86 | `split()` gives non-empty whitespace-free words |
| Text.WordsJoin | backend/src/rag/basic_rag.py:86 | words joined by spaces split back into themselves |
| Text.Lower | backend/src/rag/corrective_rag.py:199 | lower-casing is character by character and keeps the length |
| Text.ContainsIffOccurs | backend/src/rag/corrective_rag.py:199 | `needle in hay` holds exactly when the needle occurs at some index |
| Text.ParseNumber | backend/src/rag/corrective_rag.py:98 | a number is read only from numeric text: signs, digits and points with at least one digit |
| Text.NatRoundTrip | backend/src/rag/corrective_rag.py:98 | `float(str(n)) == n` |
| Text.NegativeNatRoundTrip | backend/src/rag/corrective_rag.py:98 | `float("-" + str(n)) == -n` |
| Text.DecimalRoundTrip | backend/src/rag/corrective_rag.py:98 | `float(w + "." + f)` for digit strings, not both empty, is the whole part plus the fraction digits shifted right by their count |
| Text.UnsignedDecimal | backend/src/rag/corrective_rag.py:98 | digits, a point and digits (either side may be empty, not both) read as the decimal they spell |
| Text.NegativeNumber | backend/src/rag/corrective_rag.py:98 | a minus sign in front of any text that parses unsigned gives the negated value |
| Text.DecimalExample | backend/src/rag/corrective_rag.py:354 | "7.5" reads as 7.5 |
| Text.ShiftScale | backend/src/rag/corrective_rag.py:98 | shifting n decimal places and scaling back by 10^n gives the number again |
| Text.TwoPointsFail | backend/src/rag/corrective_rag.py:355-358 | text with two decimal points (such as "7.5.1") does not parse |
| Text.DigitlessFails | backend/src/rag/corrective_rag.py:355-358 | text without a digit (such as "-" or ".") does not parse |
| Text.NonNumericFails | backend/src/rag/corrective_rag.py:98-102 | text with a non-numeric character does not parse |
| Text.BlankFails | backend/src/rag/corrective_rag.py:356-358 | blank text does not parse |
| Seqs.SliceTo | backend/src/rag/enhanced_rag.py:110 | `s[:e]` is a prefix of length min(e, len) for e ≥ 0, and len + e (at least 0) for e < 0 |
| Seqs.Drop | backend/src/api/main.py:324 | `s[b:]` is the rest after the first b |
| Ranking.Rank | backend/src/rag/basic_rag.py:97 | the stable descending order of all positions |
| Ranking.RankCharacterised | backend/src/rag/basic_rag.py:97 | the stable descending order of all positions is unique |
| Ranking.SelectRankPermutes | backend/src/rag/basic_rag.py:97-98 | reordering by the ranking is a permutation |

## Left out

- All model, index and web-search calls (chat chains, `similarity_search`, `TavilyClient.search`, embeddings) are uninterpreted functions whose replies are unconstrained; prompt wording is not modelled, only which prompt band is chosen.
- `hyde` and `expand_query` return the model's text unchanged, so they are the `hydeReply` and `expansionReply` oracles themselves.
- Concurrency (`ThreadPoolExecutor`, `asyncio.gather`) is modelled as sequential evaluation; `map` and `gather` keep input order, which the model keeps.
- The FastAPI routes, CORS, `HTTPException` mapping, the lazy global service, configuration loading, logging and every `print` are left out.
- Exceptions raised by the oracles (other than the web search, which the source catches) are not modelled. The compare endpoint's `try/except` that turns them into HTTP 500 is left out.
- Text.ParseNumber: accepts an optional sign, ASCII digits and at most one decimal point. Python's `float()` also takes exponents, underscores, `inf` and `nan`; those inputs are not modelled and are read as failures.
- Text.ParseNumber: reads digits of other scripts (Arabic-Indic "٧.٥", say) as a failure, giving score 5.0 or rating 0.0. Python's `float()` accepts any Unicode decimal digit and would read 7.5.
- Text.ParseNumber: the value is the exact rational the text spells. Python rounds it to the nearest IEEE double, so at a threshold the two can differ. "6.99999999999999999" is 7.0 in Python, which keeps the local documents at the 7.0 fallback threshold, while the model reads it as below 7.0 and falls back. The 5.0 rating bar and the 8.5 and 7.0 score bands have the same edge.
- Text.Lower: lower-cases ASCII letters only; Python's `str.lower` also folds other alphabets.
- Suggestions.Proposal: the rating is kept as the parsed number. The source stores the text `f"{rating}/10"` and parses it back for the sort; that round trip is taken to return the same number.
- DocumentLoader: pandas `read_csv` is not modelled. A row is a map from column name to a cell's text or NaN, and typed cells (a year read as the float `2019.0`, say) are given as the text `str()` would produce. A missing column is detected per row, in read order, where pandas would raise on the first row; a file with no rows therefore loads without error in both.
- DocumentLoader.Tagged: metadata is an unordered map, so the insertion order of the Python dict is not modelled.
- Compare.SearchCompare: states the facts that depend on the pipelines it calls; the rest of the response is stated by Compare.Respond, which takes the pipelines' results as parameters.
- The ingestion and index scripts (`ingest_imdb_data.py`, `upload_documents.py`, `create_index.py`, `check_doc_sizes.py`), `vector_store.py`, `embeddings.py`, `prompts.py` and the print-only test scripts are not part of this model.
