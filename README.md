# SemanticSearch — a verified Dafny model

This project models the `SemanticSearch` class of the bookmark indexer
(`src/lib/semantic-search.ts`, with the same behaviour in
`semantic-search.js`). The class ranks a user's bookmarks against a query
by the cosine similarity of text embeddings. An embedding model is loaded
lazily from the optional `transformers` global. A bookmark's embedding is
cached in its enrichment record and persisted to `chrome.storage.local`
under `bookmark_<id>`. When no model is available, or anything throws
during the semantic pass, a case-insensitive substring search over title,
url and description is used instead. A batch operation precomputes the
embeddings of many bookmarks and reports progress.

Layout, one module per file:

- `records.dfy` (`Records`): bookmarks, enrichment records, the search text `[title, description, url].join(' ')`, the storage key and the exceptions.
- `text.dfy` (`Text`): `toLowerCase` on ASCII letters and `includes`.
- `fallback.dfy` (`Fallback`): `fallbackSearch`.
- `similarity.dfy` (`Similarity`): `cosineSimilarity`, as a loop method, and the value it computes.
- `ranking.dfy` (`Ranking`): `results.sort(...)`, `slice(0, topK)` and `map`.
- `storage.dfy` (`Storage`): the `chrome.storage.local.set` calls, as a class with a log of accepted writes.
- `backend.dfy` (`Backend`): the `transformers` global, the loaded model and lazy initialisation.
- `pass.dfy` (`SearchPass`): what one `search` and one `batchEmbed` do, as functions of their inputs, plus the loop-state predicates the methods are proved with.
- `engine.dfy` (`Engine`): the class `SemanticSearch` with fields `model` and `initialized`, and methods `Initialize`, `Embed`, `Search` and `BatchEmbed` over an `array<Bookmark>` that they update in place.
- `search_properties.dfy` and `batch_properties.dfy`: what the two operations promise, proved about the functions in `SearchPass`.

Three behaviours of the code worth noting:

- In `search` the whole loop sits in one `try` (lines 90-135). A failed embedding, a rejected storage write or a length mismatch for any single bookmark therefore abandons the semantic pass, and the fallback runs over the bookmarks as they are by then. Iterations are not recovered one by one.
- `batchEmbed` calls the progress callback only after a bookmark succeeds (lines 186-191), so failed items are not counted. The calls are `(1, n), (2, n), …`, up to the number of successes.
- `batchEmbed` embeds every bookmark again, even one that already has a cached embedding (lines 171-177).

Floating point is modelled by `real`. Dafny has no square root, so a
similarity is kept as the three sums that `cosineSimilarity` accumulates
(dot product and both squared norms). Similarities are compared through
`dot·|dot| / (normA·normB)`, which is `cos·|cos|`. That value is a
strictly increasing image of the cosine, so it orders and ties exactly as
the cosine does. A zero norm gives NaN, as `0 / 0` does. The sort
comparator reads a NaN difference as "equal", as ECMAScript's
`SortCompare` does. `Array.prototype.sort` is stable, so it is specified
by a stable insertion sort.

The embedding model is a deterministic finite table from texts to
vectors. A text outside the table makes the call throw. Storage rejects
writes to a fixed set of keys. Every storage write that was accepted and
every text passed to the model is kept as a ghost log, so the contracts
can state what was written and what was embedded.

## Model

| member | source | states |
|---|---|---|
| Engine.SemanticSearch.constructor | src/lib/semantic-search.ts:4-6 | a new engine is not initialised, holds no model and has embedded nothing |
| Engine.SemanticSearch.Initialize | src/lib/semantic-search.ts:9-35 | the new state is the lazy-initialisation step: unchanged when already initialised, when `transformers` is undefined or when loading throws; a successful load stores the model and sets `initialized`; returns true exactly when already initialised or the load succeeds |
| Engine.SemanticSearch.Embed | src/lib/semantic-search.ts:38-54 | initialises lazily; fails with ModelUnavailable when no model is held afterwards, with EmbeddingFailed when the model throws, otherwise returns the model's output; the text reaches the model exactly when a model is held |
| Engine.SemanticSearch.Search | src/lib/semantic-search.ts:76-136 | the result, the array contents afterwards, the storage writes and the embedded texts are exactly those of SearchSpec for the model lazy initialisation left |
| Engine.SemanticSearch.ScoreAll | src/lib/semantic-search.ts:97-127 | the loop leaves the array, storage log and embed log as the run from index 0 does; returns true exactly when no iteration threw, and then the run's scored entries |
| Engine.SemanticSearch.SearchStep | src/lib/semantic-search.ts:98-126 | one iteration replaces slot i by the visited bookmark and performs exactly the visit's embedding and storage write; true exactly when the visit did not throw |
| Engine.SemanticSearch.BatchEmbed | src/lib/semantic-search.ts:162-198 | the state is untouched for an empty array and lazily initialised otherwise; results, array contents, storage writes and embedded texts are those of BatchRun; progress calls are (1, n) … (k, n) for k results, and none without a callback |
| Engine.SemanticSearch.BatchIteration | src/lib/semantic-search.ts:170-194 | one `try` block: slot i, storage and embed log change as the batch visit says; a record is pushed and the counter and callback advance exactly when the visit succeeded |
| Storage.LocalStorage.constructor | src/lib/semantic-search.ts:116 | a store with the given rejected keys and no writes |
| Storage.LocalStorage.Set | src/lib/semantic-search.ts:116 | accepted exactly when the key is not rejected; an accepted write is appended to the log, a rejected one leaves it unchanged |
| Backend.LazyInitIdempotent | src/lib/semantic-search.ts:39-41 | repeating lazy initialisation changes nothing, so the second check inside `embed` is harmless |
| Backend.InitResultLatches | src/lib/semantic-search.ts:9-35 | `initialize()` returns true exactly when `initialized` is set afterwards; it becomes set only through a successful load; a false result leaves the state unchanged |
| Backend.LazyInitConsistent | src/lib/semantic-search.ts:26-28 | from a state where `initialized` holds exactly when a model is held, initialisation keeps that, and a model is held afterwards exactly when it returned true |
| Records.WithEmbedding | src/lib/semantic-search.ts:113-114 | storing an embedding keeps id, title, url and description and makes that embedding the cached one |
| Records.SearchTextJoins | src/lib/semantic-search.ts:99-103 | the search text is the title, a space, the description, a space and the url, missing fields read as empty: its length, both spaces, and the title, description and url segments |
| Records.SameTextSearchText | src/lib/semantic-search.ts:99-103 | bookmarks differing only in cached embedding have the same search text |
| Records.CacheKeyInjective | src/lib/semantic-search.ts:115 | distinct bookmark ids give distinct storage keys |
| Text.LowerChar | src/lib/semantic-search.ts:144 | a letter is folded to lower case (code point + 32), anything else is kept, and the result is never upper case |
| Text.Lower | src/lib/semantic-search.ts:144 | same length, every character folded, no upper-case letter left |
| Text.LowerIdempotent | src/lib/semantic-search.ts:144 | folding twice is folding once |
| Text.LowerSameUpToCase | src/lib/semantic-search.ts:144 | texts equal up to letter case fold to the same text |
| Text.UpperSameUpToCase | src/lib/semantic-search.test.ts:131-138 | a text agrees up to case with its upper- and lower-case forms |
| Text.ContainsEmpty | src/lib/semantic-search.ts:152-154 | every text includes the empty string |
| Fallback.Filter | src/lib/semantic-search.ts:146-156 | the filter keeps only bookmarks of the input whose title, url or description includes the lower-cased query |
| Fallback.MatchIndices | src/lib/semantic-search.ts:146-156 | the matching positions, in range and strictly increasing |
| Fallback.MatchIndicesComplete | src/lib/semantic-search.ts:146-156 | every matching position is listed |
| Fallback.FilterAt | src/lib/semantic-search.ts:146-156 | the filter's output is exactly the bookmarks at the matching positions, in order |
| Fallback.FallbackSearch | src/lib/semantic-search.ts:139-159 | at most topK bookmarks, each from the input and matching the query |
| Fallback.FallbackIsFirstMatches | src/lib/semantic-search.ts:146-158 | the result is exactly the first min(topK, #matches) matching bookmarks, in input order |
| Fallback.FallbackIgnoresQueryCase | src/lib/semantic-search.test.ts:131-138 | queries equal up to letter case give the same result |
| Fallback.FilterEmptyQuery | src/lib/semantic-search.ts:146-156 | the empty query matches every bookmark |
| Fallback.FallbackEmptyQuery | src/lib/semantic-search.ts:146-158 | the empty query returns the first min(topK, n) bookmarks |
| Fallback.FilterSameTexts | src/lib/semantic-search.ts:147-149 | the filter reads only title, url and description: lists differing only in cached embeddings filter alike |
| Fallback.FallbackSameTexts | src/lib/semantic-search.ts:147-149 | the same for the fallback result |
| Similarity.CosineSimilarity | src/lib/semantic-search.ts:57-73 | throws (DimensionMismatch) exactly when the lengths differ; otherwise the loop's sums are the dot product and both squared norms |
| Similarity.SumSqNonNegative | src/lib/semantic-search.ts:68-69 | a squared norm is never negative |
| Similarity.DotSymmetric | src/lib/semantic-search.ts:67 | the dot product is symmetric |
| Similarity.SimilaritySymmetric | src/lib/semantic-search.ts:57-73 | swapping the arguments swaps the norms and keeps the ranking key |
| Similarity.ZeroNormZeroDot | src/lib/semantic-search.ts:72 | a zero vector has a zero dot product with anything |
| Similarity.SumSqPositive | src/lib/semantic-search.ts:68-69 | a vector with a non-zero entry has a positive squared norm |
| Similarity.SimilarityNaN | src/lib/semantic-search.ts:72 | the similarity is NaN exactly when one of the vectors has norm zero, and the dot product is then zero |
| Similarity.KeyIsSignedSquare | src/lib/semantic-search.ts:72 | whenever s = sqrt(normA·normB) exists, the ranking key is cos·|cos| for cos = dot / s |
| Similarity.SelfSimilarity | src/lib/semantic-search.test.ts:23-27 | a non-zero vector has similarity 1 with itself |
| Similarity.DotNegated | src/lib/semantic-search.test.ts:36-41 | v·(−v) = −‖v‖² and ‖−v‖² = ‖v‖² |
| Similarity.OppositeSimilarity | src/lib/semantic-search.test.ts:36-41 | a non-zero vector has similarity −1 with its negation |
| Similarity.OrthogonalSimilarity | src/lib/semantic-search.test.ts:29-34 | [1, 0] and [0, 1] have similarity 0 |
| Similarity.SixtyDegreeSimilarity | src/lib/semantic-search.test.ts:51-57 | [1, 0] and [0.5, √0.75] have similarity 0.5 |
| Similarity.SignedSquareMonotone | src/lib/semantic-search.ts:130 | x·|x| is strictly increasing and injective, so the key orders and ties as the cosine |
| Similarity.SignedSquareStrict | src/lib/semantic-search.ts:130 | x < y implies x·|x| < y·|y| |
| Ranking.Insert | src/lib/semantic-search.ts:130 | inserting adds exactly the new entry |
| Ranking.SortBySimilarity | src/lib/semantic-search.ts:130 | the sort is a permutation of its input |
| Ranking.TopBookmarks | src/lib/semantic-search.ts:131 | min(topK, n) bookmarks, the j-th being the bookmark of the j-th sorted entry |
| Ranking.AppendRanked | src/lib/semantic-search.ts:130 | appending a later entry that beats nobody keeps a ranking ranked |
| Ranking.AppendLast | src/lib/semantic-search.ts:130 | appending an entry ranked after every element keeps a ranking ranked |
| Ranking.InsertedBefore | src/lib/semantic-search.ts:130 | after insertion every element ranks before the entry it was moved ahead of |
| Ranking.InsertRanked | src/lib/semantic-search.ts:130 | inserting a later entry into a ranking gives a ranking |
| Ranking.SortRanked | src/lib/semantic-search.ts:130 | with numeric similarities the sort orders by non-increasing similarity, equal ones in input order |
| Ranking.InsertDistinct | src/lib/semantic-search.ts:130 | inserting an entry with a new position keeps positions distinct |
| Ranking.SortDistinct | src/lib/semantic-search.ts:130 | the sorted entries come from distinct input positions |
| Ranking.RankingUnique | src/lib/semantic-search.ts:130 | two rankings of the same entries are equal, so every stable sort with this comparator gives this order |
| SearchPass.Run | src/lib/semantic-search.ts:97-127 | the loop from index i leaves one bookmark per input bookmark from i on (that they differ from the input only in cached embeddings is RunKeepsTexts) |
| SearchPass.ScoredSoFarAt | src/lib/semantic-search.ts:97 | the bookmark about to be visited is still the input's |
| SearchPass.ScoredSoFarStep | src/lib/semantic-search.ts:97-127 | an iteration that does not throw advances the loop state by its update, writes, embedded text and entry |
| SearchPass.ScoredSoFarStop | src/lib/semantic-search.ts:97-135 | an iteration that throws ends the run with the writes and texts so far |
| SearchPass.ScoredSoFarDone | src/lib/semantic-search.ts:97-127 | after the last iteration the accumulated state is the whole run |
| SearchPass.BatchRun | src/lib/semantic-search.ts:169-195 | the batch loop leaves one bookmark per input bookmark |
| SearchPass.Progress | src/lib/semantic-search.ts:187-191 | after k successes the callback calls are (1, n) … (k, n) |
| SearchPass.ProgressStep | src/lib/semantic-search.ts:187-191 | the callback calls follow the `processed` counter |
| SearchPass.BatchSoFarStep | src/lib/semantic-search.ts:169-195 | each iteration advances the batch loop state by its visit |
| SearchProperties.VisitOk | src/lib/semantic-search.ts:105-126 | an iteration succeeds exactly when an embedding is at hand, it has the query's length and a needed write is accepted; it then leaves the updated bookmark scored against that embedding |
| SearchProperties.RunSucceedsIff | src/lib/semantic-search.ts:97-127 | the loop runs to the end exactly when every bookmark's iteration succeeds |
| SearchProperties.RunScoresAll | src/lib/semantic-search.ts:97-127 | a complete loop scores every bookmark, in input order, against the embedding it used, and leaves each one updated |
| SearchProperties.RunKeepsTexts | src/lib/semantic-search.ts:105-118 | the loop changes only cached embeddings, also when it stops early |
| SearchProperties.RunCaching | src/lib/semantic-search.ts:105-118 | the loop embeds a prefix of the uncached bookmarks' texts and writes a prefix of their cache writes, all of them when it completes; a cached bookmark is never embedded or written |
| SearchProperties.AllCachedEmbedsOnlyQuery | src/lib/semantic-search.ts:107-108 | when every bookmark has a cached embedding, only the query is embedded and nothing is written |
| SearchProperties.NothingUncached | src/lib/semantic-search.ts:107-108 | a fully cached list has no uncached texts and no pending writes |
| SearchProperties.SearchKeepsTexts | src/lib/semantic-search.ts:76-136 | search never changes a bookmark's id, title, url or description |
| SearchProperties.SearchFallsBack | src/lib/semantic-search.ts:132-135 | without a model, without a query embedding, or when any iteration fails, the result is the fallback over the bookmarks as left, and has the same bookmarks as the fallback over the input |
| SearchProperties.SortedEntries | src/lib/semantic-search.ts:123-130 | after a complete loop the sorted entries are the loop's entries at their own positions, positions distinct, ranked when all similarities are numbers |
| SearchProperties.SemanticRanking | src/lib/semantic-search.ts:129-131 | on the semantic path the result has min(topK, n) bookmarks, taken in order from a sort of all n entries with distinct positions, ranked when all similarities are numbers |
| SearchProperties.SemanticResult | src/lib/semantic-search.ts:120-131 | on the semantic path each sorted entry holds the bookmark at its position as the search left it, scored against the embedding that bookmark used |
| SearchProperties.UpdatedStable | src/lib/semantic-search.ts:107-117 | a bookmark the loop updated needs no further update and yields the same embedding; one without a cached embedding has no enrichment record |
| SearchProperties.NoPendingWrites | src/lib/semantic-search.ts:113-117 | bookmarks whose enrichment records all hold an embedding cause no writes |
| SearchProperties.RunAgain | src/lib/semantic-search.ts:97-127 | rerunning the loop over what a complete run left gives the same entries, changes nothing and writes nothing |
| SearchProperties.SearchTwice | src/lib/semantic-search.ts:76-136 | repeating a search that took the semantic path returns the same result, leaves the bookmarks as they are and writes nothing; only the query and the texts of bookmarks without an enrichment record are embedded again |
| BatchProperties.OkIndices | src/lib/semantic-search.ts:169-195 | the positions of the bookmarks that yield a record, in range and strictly increasing |
| BatchProperties.OkIndicesComplete | src/lib/semantic-search.ts:169-195 | every position that yields a record is listed |
| BatchProperties.BatchWithoutModel | src/lib/semantic-search.ts:169-194 | without a model every iteration throws and is skipped: nothing is changed, written, embedded or collected |
| BatchProperties.BatchVisitWith | src/lib/semantic-search.ts:170-194 | with a model an iteration embeds the text, stores the embedding into the record, and pushes the bookmark's record exactly when the text embeds and a needed write is accepted |
| BatchProperties.BatchEmbeddedLength | src/lib/semantic-search.ts:177 | with a model the batch embeds exactly one text per bookmark |
| BatchProperties.BatchEmbeddedAt | src/lib/semantic-search.ts:171-177 | the k-th embedded text is bookmark k's search text, cached embedding or not |
| BatchProperties.BatchBookmarkAt | src/lib/semantic-search.ts:180-181 | bookmark k ends up with its fresh embedding stored, also when its write is rejected |
| BatchProperties.BatchEmbedsAll | src/lib/semantic-search.ts:169-184 | every bookmark's text is embedded in order and every bookmark is refreshed |
| BatchProperties.BatchResultsLength | src/lib/semantic-search.ts:186 | one record per bookmark that yields one |
| BatchProperties.BatchResultAt | src/lib/semantic-search.ts:186 | the j-th record holds the id and embedding of the j-th bookmark that yields one |
| BatchProperties.BatchResults | src/lib/semantic-search.ts:186 | the records are exactly those of the succeeding bookmarks, in input order, with their ids and embeddings |
| BatchProperties.BatchWarmsCache | src/lib/semantic-search.ts:180-183 | after a batch in which every bookmark succeeded, every enrichment record holds an embedding, and a search with the same model writes nothing |

`semantic-search.js` has the same operations at shifted lines. Its
`search` is at 76-131, `fallbackSearch` at 135-149 and `batchEmbed` from
152 on.

## Left out

- Floating point: `number` is modelled by `real`, so rounding, overflow to infinity and the `toBeCloseTo` tolerance of the tests are not captured. `Math.sqrt` is not evaluated (see above).
- Similarity.CosineSimilarity: returns the three sums rather than the divided value; the division `dot / (sqrt(normA)·sqrt(normB))` is captured only through the ranking key and the NaN case.
- Ranking.SortBySimilarity: when a similarity is NaN, ECMAScript leaves the sort order implementation-defined; the model fixes the order of a stable insertion sort, and SortRanked, SemanticRanking and RankingUnique promise the ranked order only when every similarity is a number.
- `topK` is a natural number; a negative or fractional `topK` (which `slice` would interpret) is not modelled.
- `toLowerCase` folds ASCII letters only; Unicode case mapping is not modelled.
- `async`/`await`, `console` logging and overlapping calls on the same instance (e.g. two concurrent initialisations loading the model twice) are not modelled; each call runs to completion on its own.
- Engine.SemanticSearch.BatchEmbed: the `transformers` global and the outcome of loading the model are fixed for the engine's lifetime (`const transformers`), so one lazy-initialisation outcome serves the whole batch. In the source every `embed` call while `initialized` is false checks the global again and reruns `pipeline(...)` (lines 10-26, 39-41, 177). A global that appears later, or a load that throws once and then succeeds, would load the model part-way through a batch, skipping the earlier bookmarks and embedding the later ones; that is not modelled, and BatchProperties.BatchWithoutModel (an empty batch without a model) relies on it. The same holds across calls: a retried `initialize()`, `embed` or `search` sees the same load outcome as the first attempt.
- The embedding model is a deterministic table; a model that returns different vectors for the same text, or whose failures depend on history, is not captured, and every kind of model exception is one `EmbeddingFailed`. The options `{ pooling: 'mean', normalize: true }` are part of the model, not computed.
- `chrome.storage.local` is reduced to its `set` calls: a fixed set of keys whose writes are rejected, and a log of accepted writes; reads and the stored contents are not modelled.
- Bookmarks are values in an array, and updating a bookmark replaces its slot. Aliasing is not captured: two slots sharing one enrichment object, the same bookmark listed twice, or the caller holding the enrichment object elsewhere.
- Enrichment records carry only `description` and `embedding`; their other fields are stored unchanged by the source and are not modelled.
- The progress callback is modelled as the returned list of calls it would receive; a callback that throws (which the source's `try` would catch after the result was pushed) is not modelled.
- `popup.js`, the options page, the enrichment pipeline and the rest of the repository are not part of this model.
