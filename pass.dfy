/** What one call of `search` or `batchEmbed` does to the bookmarks, to
    storage and to the model, stated as functions of the inputs. The
    methods of the engine are proved to do exactly this. */
module SearchPass {
  import opened Wrappers
  import opened Records
  import opened Fallback
  import opened Similarity
  import opened Ranking
  import opened Storage
  import opened Backend

  /** What handling one bookmark in the search loop did: the bookmark
      afterwards, the texts passed to the model, the storage writes, and
      the scored entry or the exception that ended the loop. */
  datatype Step = Step(after: Bookmark, embedded: seq<string>, written: seq<Write>, outcome: Result<Scored, Error>)

  /** `cosineSimilarity(queryEmbedding, e)` followed by `results.push`. */
  function Compare(qv: seq<real>, e: seq<real>, b: Bookmark, pos: nat): Result<Scored, Error>
  {
    if |qv| != |e| then Failure(DimensionMismatch) else Success(Scored(b, Similar(qv, e), pos))
  }

  /** One iteration of the search loop for the bookmark at index `pos`. A
      cached embedding is used as it is; otherwise the search text is
      embedded, and when the bookmark has an enrichment record the
      embedding is stored into it before it is written to storage. */
  function Visit(f: Embedder, rejects: set<string>, qv: seq<real>, b: Bookmark, pos: nat): Step
  {
    match CachedEmbedding(b)
    case Some(e) => Step(b, [], [], Compare(qv, e, b, pos))
    case None =>
      var text := SearchText(b);
      match Output(f, text)
      case None => Step(b, [text], [], Failure(EmbeddingFailed))
      case Some(v) =>
        if b.enhanced.None? then Step(b, [text], [], Compare(qv, v, b, pos))
        else
          var b' := WithEmbedding(b, v);
          if CacheKey(b.id) in rejects then Step(b', [text], [], Failure(StorageFailed))
          else Step(b', [text], [Write(CacheKey(b.id), b'.enhanced.value)], Compare(qv, v, b', pos))
  }

  /** The outcome of the search loop: the bookmarks afterwards, the scored
      entries, the storage writes, the embedded texts, and the exception
      that ended the loop early, if any. */
  datatype Pass = Pass(bookmarks: seq<Bookmark>, entries: seq<Scored>, writes: seq<Write>,
                       embedded: seq<string>, failure: Option<Error>)

  /** The search loop from index i of `bs` on: the bookmarks from index i
      afterwards, and what the iterations from i on did. The first
      exception stops the loop and leaves the later bookmarks as they were. */
  function Run(f: Embedder, rejects: set<string>, qv: seq<real>, bs: seq<Bookmark>, i: nat): (p: Pass)
    requires i <= |bs|
    ensures |p.bookmarks| == |bs| - i
    decreases |bs| - i
  {
    if i == |bs| then Pass([], [], [], [], None)
    else
      var st := Visit(f, rejects, qv, bs[i], i);
      if st.outcome.Failure? then
        Pass([st.after] + bs[i + 1..], [], st.written, st.embedded, Some(st.outcome.error))
      else
        var rest := Run(f, rejects, qv, bs, i + 1);
        Pass([st.after] + rest.bookmarks, [st.outcome.value] + rest.entries,
             st.written + rest.writes, st.embedded + rest.embedded, rest.failure)
  }

  /** What `search(query, bookmarks, topK)` returns and leaves behind, given
      the model lazy initialisation produced. */
  datatype SearchOutcome = SearchOutcome(result: seq<Bookmark>, bookmarks: seq<Bookmark>,
                                         writes: seq<Write>, embedded: seq<string>)

  function SearchSpec(m: Option<Embedder>, rejects: set<string>, query: string,
                      bs: seq<Bookmark>, topK: nat): SearchOutcome
  {
    match m
    case None => SearchOutcome(FallbackSearch(query, bs, topK), bs, [], [])
    case Some(f) =>
      match Output(f, query)
      case None => SearchOutcome(FallbackSearch(query, bs, topK), bs, [], [query])
      case Some(qv) =>
        var p := Run(f, rejects, qv, bs, 0);
        var result := if p.failure.Some? then FallbackSearch(query, p.bookmarks, topK)
                      else TopBookmarks(SortBySimilarity(p.entries), topK);
        SearchOutcome(result, p.bookmarks, p.writes, [query] + p.embedded)
  }

  /** SearchSpec once the model and the query embedding are known. */
  lemma SearchSpecLoaded(f: Embedder, rejects: set<string>, query: string, qv: seq<real>,
                         bs: seq<Bookmark>, topK: nat, p: Pass)
    requires Output(f, query) == Some(qv) && p == Run(f, rejects, qv, bs, 0)
    ensures SearchSpec(Some(f), rejects, query, bs, topK)
            == SearchOutcome(if p.failure.Some? then FallbackSearch(query, p.bookmarks, topK)
                             else TopBookmarks(SortBySimilarity(p.entries), topK),
                             p.bookmarks, p.writes, [query] + p.embedded)
  {
  }

  /** The state of the search loop after its first i iterations, none of
      which threw: the bookmarks `now`, the writes and embedded texts so
      far and the scored entries, which together with the run from i on
      make up the whole run. */
  predicate ScoredSoFar(f: Embedder, rejects: set<string>, qv: seq<real>, bs: seq<Bookmark>, i: nat,
                        now: seq<Bookmark>, writes: seq<Write>, embedded: seq<string>, entries: seq<Scored>)
  {
    && i <= |bs| == |now|
    && now[i..] == bs[i..]
    && (var rest := Run(f, rejects, qv, bs, i);
        Run(f, rejects, qv, bs, 0)
        == Pass(now[..i] + rest.bookmarks, entries + rest.entries, writes + rest.writes,
                embedded + rest.embedded, rest.failure))
  }

  /** The bookmark the loop is about to visit is still the input's. */
  lemma ScoredSoFarAt(f: Embedder, rejects: set<string>, qv: seq<real>, bs: seq<Bookmark>, i: nat,
                      now: seq<Bookmark>, writes: seq<Write>, embedded: seq<string>, entries: seq<Scored>)
    requires i < |bs|
    requires ScoredSoFar(f, rejects, qv, bs, i, now, writes, embedded, entries)
    ensures now[i] == bs[i]
  {
    assert now[i..][0] == bs[i..][0];
  }

  /** An iteration that does not throw takes the loop state from i to i + 1. */
  lemma ScoredSoFarStep(f: Embedder, rejects: set<string>, qv: seq<real>, bs: seq<Bookmark>, i: nat,
                        now: seq<Bookmark>, writes: seq<Write>, embedded: seq<string>, entries: seq<Scored>,
                        now': seq<Bookmark>)
    requires i < |bs|
    requires ScoredSoFar(f, rejects, qv, bs, i, now, writes, embedded, entries)
    requires var st := Visit(f, rejects, qv, bs[i], i);
             st.outcome.Success? && now' == now[i := st.after]
    ensures var st := Visit(f, rejects, qv, bs[i], i);
            ScoredSoFar(f, rejects, qv, bs, i + 1, now', writes + st.written, embedded + st.embedded,
                        entries + [st.outcome.value])
  {
    var st := Visit(f, rejects, qv, bs[i], i);
    var rest, rest' := Run(f, rejects, qv, bs, i), Run(f, rejects, qv, bs, i + 1);
    UpdateSplit(now, i, st.after);
    assert now'[..i + 1] == now[..i] + [st.after];
    assert now'[i + 1..] == bs[i + 1..] by {
      assert now[i + 1..] == now[i..][1..];
    }
    assert now[..i] + rest.bookmarks == now'[..i + 1] + rest'.bookmarks;
    assert entries + rest.entries == (entries + [st.outcome.value]) + rest'.entries;
    assert writes + rest.writes == (writes + st.written) + rest'.writes;
    assert embedded + rest.embedded == (embedded + st.embedded) + rest'.embedded;
  }

  /** An iteration that throws ends the whole run. */
  lemma ScoredSoFarStop(f: Embedder, rejects: set<string>, qv: seq<real>, bs: seq<Bookmark>, i: nat,
                        now: seq<Bookmark>, writes: seq<Write>, embedded: seq<string>, entries: seq<Scored>,
                        now': seq<Bookmark>)
    requires i < |bs|
    requires ScoredSoFar(f, rejects, qv, bs, i, now, writes, embedded, entries)
    requires var st := Visit(f, rejects, qv, bs[i], i);
             st.outcome.Failure? && now' == now[i := st.after]
    ensures var st := Visit(f, rejects, qv, bs[i], i);
            var p := Run(f, rejects, qv, bs, 0);
            p.bookmarks == now' && p.writes == writes + st.written && p.embedded == embedded + st.embedded
            && p.failure.Some?
  {
    var st := Visit(f, rejects, qv, bs[i], i);
    UpdateSplit(now, i, st.after);
    assert now[i + 1..] == now[i..][1..];
  }

  /** After the last iteration the accumulated state is the whole run. */
  lemma ScoredSoFarDone(f: Embedder, rejects: set<string>, qv: seq<real>, bs: seq<Bookmark>,
                        now: seq<Bookmark>, writes: seq<Write>, embedded: seq<string>, entries: seq<Scored>)
    requires ScoredSoFar(f, rejects, qv, bs, |bs|, now, writes, embedded, entries)
    ensures Run(f, rejects, qv, bs, 0) == Pass(now, entries, writes, embedded, None)
  {
    assert now[..|bs|] == now;
  }

  /** Replacing element i splits a sequence around the new element. */
  lemma UpdateSplit<T>(s: seq<T>, i: nat, x: T)
    requires i < |s|
    ensures s[i := x] == s[i := x][..i] + ([x] + s[i + 1..])
    ensures s[i := x][..i] == s[..i] && s[i := x][i + 1..] == s[i + 1..]
  {
    assert s[i := x] == s[i := x][..i] + ([x] + s[i + 1..]);
  }

  lemma AppendAssoc<T>(a: seq<T>, b: seq<T>, c: seq<T>, d: seq<T>)
    ensures (a + (b + c)) + d == a + (b + (c + d))
    ensures (a + c) + d == a + (c + d)
  {
  }

  /** `{ id, embedding }` as collected by `batchEmbed`. */
  datatype EmbeddingRecord = EmbeddingRecord(id: string, embedding: seq<real>)

  /** What handling one bookmark in the batch loop did. */
  datatype BatchStep = BatchStep(after: Bookmark, embedded: seq<string>, written: seq<Write>,
                                 outcome: Result<EmbeddingRecord, Error>)

  /** One iteration of the batch loop: the search text is always embedded,
      cached embedding or not; any exception skips the bookmark. */
  function BatchVisit(m: Option<Embedder>, rejects: set<string>, b: Bookmark): BatchStep
  {
    var text := SearchText(b);
    match m
    case None => BatchStep(b, [], [], Failure(ModelUnavailable))
    case Some(f) =>
      match Output(f, text)
      case None => BatchStep(b, [text], [], Failure(EmbeddingFailed))
      case Some(v) =>
        if b.enhanced.None? then BatchStep(b, [text], [], Success(EmbeddingRecord(b.id, v)))
        else
          var b' := WithEmbedding(b, v);
          if CacheKey(b.id) in rejects then BatchStep(b', [text], [], Failure(StorageFailed))
          else BatchStep(b', [text], [Write(CacheKey(b.id), b'.enhanced.value)], Success(EmbeddingRecord(b.id, v)))
  }

  /** What an iteration pushes onto `results`. */
  function Pushed(st: BatchStep): seq<EmbeddingRecord>
  {
    if st.outcome.Success? then [st.outcome.value] else []
  }

  /** The outcome of the batch loop. */
  datatype Batch = Batch(bookmarks: seq<Bookmark>, results: seq<EmbeddingRecord>,
                         writes: seq<Write>, embedded: seq<string>)

  /** The batch loop over `bs`: the last bookmark is handled after all the
      others, and no exception stops the loop. */
  function BatchRun(m: Option<Embedder>, rejects: set<string>, bs: seq<Bookmark>): (p: Batch)
    ensures |p.bookmarks| == |bs|
  {
    if bs == [] then Batch([], [], [], [])
    else
      var n := |bs| - 1;
      var p := BatchRun(m, rejects, bs[..n]);
      var st := BatchVisit(m, rejects, bs[n]);
      Batch(p.bookmarks + [st.after],
            p.results + Pushed(st),
            p.writes + st.written, p.embedded + st.embedded)
  }

  /** The calls `progressCallback(processed, total)` made after k successes. */
  function Progress(k: nat, total: nat): (r: seq<(nat, nat)>)
    ensures |r| == k
    ensures forall j :: 0 <= j < k ==> r[j] == (j + 1, total)
  {
    if k == 0 then [] else Progress(k - 1, total) + [(k, total)]
  }

  lemma ProgressSnoc(k: nat, total: nat)
    ensures Progress(k + 1, total) == Progress(k, total) + [(k + 1, total)]
  {
  }

  /** The state of the batch loop after its first i iterations: the
      bookmarks `now`, the writes and embedded texts so far, the collected
      results, the counter and the progress calls reported. */
  predicate BatchSoFar(m: Option<Embedder>, rejects: set<string>, bs: seq<Bookmark>, i: nat,
                       now: seq<Bookmark>, writes: seq<Write>, embedded: seq<string>,
                       results: seq<EmbeddingRecord>, processed: nat, progress: seq<(nat, nat)>, report: bool)
  {
    && i <= |bs| == |now|
    && now[i..] == bs[i..]
    && (var p := BatchRun(m, rejects, bs[..i]);
        now[..i] == p.bookmarks && writes == p.writes && embedded == p.embedded && results == p.results)
    && processed == |results|
    && progress == if report then Progress(processed, |bs|) else []
  }

  /** One iteration of the batch loop takes the loop state from i to i + 1. */
  lemma BatchSoFarStep(m: Option<Embedder>, rejects: set<string>, bs: seq<Bookmark>, i: nat,
                       now: seq<Bookmark>, writes: seq<Write>, embedded: seq<string>,
                       results: seq<EmbeddingRecord>, processed: nat, progress: seq<(nat, nat)>, report: bool,
                       now': seq<Bookmark>, results': seq<EmbeddingRecord>, processed': nat, progress': seq<(nat, nat)>)
    requires i < |bs|
    requires BatchSoFar(m, rejects, bs, i, now, writes, embedded, results, processed, progress, report)
    requires var st := BatchVisit(m, rejects, now[i]);
             && now' == now[i := st.after]
             && results' == results + Pushed(st)
             && processed' == processed + |Pushed(st)|
             && progress' == if report && st.outcome.Success? then progress + [(processed', |bs|)] else progress
    ensures var st := BatchVisit(m, rejects, bs[i]);
            BatchSoFar(m, rejects, bs, i + 1, now', writes + st.written, embedded + st.embedded,
                       results', processed', progress', report)
  {
    assert now[i] == now[i..][0] == bs[i];
    var st := BatchVisit(m, rejects, bs[i]);
    BatchRunSnoc(m, rejects, bs, i);
    UpdateSplit(now, i, st.after);
    assert now'[..i + 1] == now[..i] + [st.after];
    assert now'[i + 1..] == bs[i + 1..] by {
      assert now[i + 1..] == now[i..][1..];
    }
    ProgressStep(report, st.outcome.Success?, processed, |bs|, progress, processed', progress');
    assert (var q := BatchRun(m, rejects, bs[..i + 1]);
            now'[..i + 1] == q.bookmarks && writes + st.written == q.writes
            && embedded + st.embedded == q.embedded && results' == q.results);
  }

  /** The progress calls follow the counter. */
  lemma ProgressStep(report: bool, success: bool, processed: nat, total: nat, progress: seq<(nat, nat)>,
                     processed': nat, progress': seq<(nat, nat)>)
    requires progress == if report then Progress(processed, total) else []
    requires processed' == if success then processed + 1 else processed
    requires progress' == if report && success then progress + [(processed', total)] else progress
    ensures progress' == if report then Progress(processed', total) else []
  {
    if report && success {
      ProgressSnoc(processed, total);
    }
  }

  /** The batch run over the first i + 1 bookmarks extends the run over
      the first i by the visit of bookmark i. */
  lemma BatchRunSnoc(m: Option<Embedder>, rejects: set<string>, bs: seq<Bookmark>, i: nat)
    requires i < |bs|
    ensures var p := BatchRun(m, rejects, bs[..i]);
            var st := BatchVisit(m, rejects, bs[i]);
            BatchRun(m, rejects, bs[..i + 1])
            == Batch(p.bookmarks + [st.after],
                     p.results + Pushed(st),
                     p.writes + st.written, p.embedded + st.embedded)
  {
    assert bs[..i + 1][..i] == bs[..i];
  }

}
