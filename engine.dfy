/** The `SemanticSearch` class: lazy model loading, embedding, cosine
    ranking with embedding caching, the text-match fallback and batch
    embedding. */
module Engine {
  import opened Wrappers
  import opened Records
  import opened Fallback
  import opened Similarity
  import opened Ranking
  import opened Storage
  import opened Backend
  import opened SearchPass

  class SemanticSearch {
    /** `private model: any = null` */
    var model: Option<Embedder>
    /** `private initialized: boolean = false` */
    var initialized: bool
    /** The `transformers` global the model is loaded from. */
    const transformers: Transformers
    /** Every text passed to the loaded model, in order. */
    ghost var embedLog: seq<string>

    constructor (transformers: Transformers)
      ensures this.transformers == transformers
      ensures !initialized && model == None && embedLog == []
    {
      this.transformers := transformers;
      model := None;
      initialized := false;
      embedLog := [];
    }

    function State(): EngineState
      reads this
    {
      EngineState(initialized, model)
    }

    /** `initialize()`: loads the model once; true when a model is loaded. */
    method Initialize() returns (ok: bool)
      modifies this
      ensures State() == LazyInit(old(State()), transformers)
      ensures ok == InitResult(old(State()), transformers)
      ensures embedLog == old(embedLog)
    {
      if initialized {
        return true;
      }
      match transformers
      case Undefined =>
        return false;
      case Present(load) =>
        match load
        case LoadThrows =>
          return false;
        case Loaded(m) =>
          model := Some(m);
          initialized := true;
          return true;
    }

    /** `embed(text)`: initialises lazily, then runs the model on the text. */
    method Embed(text: string) returns (r: Result<seq<real>, Error>)
      modifies this
      ensures State() == LazyInit(old(State()), transformers)
      ensures r == EmbedResult(State().model, text)
      ensures embedLog == old(embedLog) + (if State().model.Some? then [text] else [])
    {
      if !initialized {
        var _ := Initialize();
      }
      if model.None? {
        return Failure(ModelUnavailable);
      }
      embedLog := embedLog + [text];
      var output := Output(model.value, text);
      if output.None? {
        return Failure(EmbeddingFailed);
      }
      return Success(output.value);
    }

    /** `search(query, bookmarks, topK)`: ranks the bookmarks by cosine
        similarity to the query, embedding and caching the bookmarks that
        have no embedding yet; any exception, and a missing model, gives
        the text-match fallback instead. */
    method Search(query: string, bookmarks: array<Bookmark>, store: LocalStorage, topK: nat := 10)
      returns (r: seq<Bookmark>)
      modifies this, bookmarks, store
      ensures State() == LazyInit(old(State()), transformers)
      ensures var o := SearchSpec(State().model, store.rejects, query, old(bookmarks[..]), topK);
              && r == o.result
              && bookmarks[..] == o.bookmarks
              && store.log == old(store.log) + o.writes
              && embedLog == old(embedLog) + o.embedded
    {
      if !initialized {
        var _ := Initialize();
      }
      if model.None? {
        r := FallbackSearch(query, bookmarks[..], topK);
        return;
      }
      ghost var f := model.value;
      ghost var bs := bookmarks[..];
      ghost var log0 := store.log;
      ghost var emb0 := embedLog;
      var q := Embed(query);
      if q.Failure? {
        r := FallbackSearch(query, bookmarks[..], topK);
        return;
      }
      var qv := q.value;
      ghost var p := Run(f, store.rejects, qv, bs, 0);
      SearchSpecLoaded(f, store.rejects, query, qv, bs, topK, p);
      var results, ok := ScoreAll(qv, bookmarks, store, f);
      AppendAssoc(emb0, [], [query], p.embedded);
      assert bookmarks[..] == p.bookmarks && store.log == log0 + p.writes;
      assert embedLog == emb0 + ([query] + p.embedded);
      if !ok {
        r := FallbackSearch(query, bookmarks[..], topK);
        return;
      }
      r := TopBookmarks(SortBySimilarity(results), topK);
    }

    /** The `for (const bookmark of bookmarks)` loop of `search`, with the
        model loaded and the query embedded: true and the scored entries when
        no iteration threw, false as soon as one did. */
    method ScoreAll(qv: seq<real>, bookmarks: array<Bookmark>, store: LocalStorage, ghost f: Embedder)
      returns (results: seq<Scored>, ok: bool)
      requires model == Some(f) && LazyInit(State(), transformers) == State()
      modifies this, bookmarks, store
      ensures State() == old(State())
      ensures var p := Run(f, store.rejects, qv, old(bookmarks[..]), 0);
              && bookmarks[..] == p.bookmarks
              && store.log == old(store.log) + p.writes
              && embedLog == old(embedLog) + p.embedded
              && ok == p.failure.None?
              && (ok ==> results == p.entries)
    {
      ghost var bs := bookmarks[..];
      ghost var log0 := store.log;
      ghost var emb0 := embedLog;
      ghost var writes: seq<Write> := [];
      ghost var texts: seq<string> := [];
      results := [];
      var i := 0;
      while i < bookmarks.Length
        invariant i <= bookmarks.Length
        invariant model == Some(f) && State() == old(State())
        invariant store.log == log0 + writes && embedLog == emb0 + texts
        invariant ScoredSoFar(f, store.rejects, qv, bs, i, bookmarks[..], writes, texts, results)
      {
        ghost var st := Visit(f, store.rejects, qv, bs[i], i);
        ghost var before := bookmarks[..];
        ScoredSoFarAt(f, store.rejects, qv, bs, i, before, writes, texts, results);
        var stepOk, entry := SearchStep(qv, bookmarks, store, i, f);
        AppendAssoc(log0, [], writes, st.written);
        AppendAssoc(emb0, [], texts, st.embedded);
        if !stepOk {
          ScoredSoFarStop(f, store.rejects, qv, bs, i, before, writes, texts, results, bookmarks[..]);
          return [], false;
        }
        ScoredSoFarStep(f, store.rejects, qv, bs, i, before, writes, texts, results, bookmarks[..]);
        writes, texts := writes + st.written, texts + st.embedded;
        results := results + [entry];
        i := i + 1;
      }
      ScoredSoFarDone(f, store.rejects, qv, bs, bookmarks[..], writes, texts, results);
      return results, true;
    }

    /** The body of the search loop for the bookmark at index i, with the
        model already loaded: true and the scored entry, or false when it threw. */
    method SearchStep(qv: seq<real>, bookmarks: array<Bookmark>, store: LocalStorage, i: nat, ghost f: Embedder)
      returns (ok: bool, entry: Scored)
      requires i < bookmarks.Length && model == Some(f) && LazyInit(State(), transformers) == State()
      modifies this, bookmarks, store
      ensures State() == old(State())
      ensures var st := Visit(f, store.rejects, qv, old(bookmarks[i]), i);
              && bookmarks[..] == old(bookmarks[..])[i := st.after]
              && store.log == old(store.log) + st.written
              && embedLog == old(embedLog) + st.embedded
              && ok == st.outcome.Success?
              && (ok ==> entry == st.outcome.value)
    {
      var b := bookmarks[i];
      var e: seq<real>;
      entry := Scored(b, Cosine(0.0, 0.0, 0.0), i);
      if b.enhanced.Some? && b.enhanced.value.embedding.Some? {
        e := b.enhanced.value.embedding.value;
      } else {
        var text := SearchText(b);
        var v := Embed(text);
        if v.Failure? {
          return false, entry;
        }
        e := v.value;
        if b.enhanced.Some? {
          b := WithEmbedding(b, e);
          bookmarks[i] := b;
          var stored := store.Set(CacheKey(b.id), b.enhanced.value);
          if !stored {
            return false, entry;
          }
        }
      }
      var c := CosineSimilarity(qv, e);
      if c.Failure? {
        return false, entry;
      }
      return true, Scored(b, c.value, i);
    }

    /** `batchEmbed(bookmarks, progressCallback)`: embeds every bookmark,
        stores the embedding into its enrichment record, and collects
        `{ id, embedding }` for the bookmarks that raised no exception; the
        callback calls it would make are returned in `progress`. */
    method BatchEmbed(bookmarks: array<Bookmark>, store: LocalStorage, reportProgress: bool)
      returns (results: seq<EmbeddingRecord>, progress: seq<(nat, nat)>)
      modifies this, bookmarks, store
      ensures State() == if bookmarks.Length == 0 then old(State()) else LazyInit(old(State()), transformers)
      ensures var p := BatchRun(State().model, store.rejects, old(bookmarks[..]));
              && results == p.results
              && bookmarks[..] == p.bookmarks
              && store.log == old(store.log) + p.writes
              && embedLog == old(embedLog) + p.embedded
      ensures progress == if reportProgress then Progress(|results|, bookmarks.Length) else []
    {
      ghost var m := LazyInit(State(), transformers).model;
      ghost var bs := bookmarks[..];
      ghost var log0 := store.log;
      ghost var emb0 := embedLog;
      ghost var writes: seq<Write> := [];
      ghost var texts: seq<string> := [];
      results, progress := [], [];
      var processed := 0;
      for i := 0 to bookmarks.Length
        invariant i == 0 ==> State() == old(State())
        invariant i > 0 ==> State() == LazyInit(old(State()), transformers)
        invariant store.log == log0 + writes && embedLog == emb0 + texts
        invariant BatchSoFar(m, store.rejects, bs, i, bookmarks[..], writes, texts, results, processed, progress, reportProgress)
      {
        ghost var before := bookmarks[..];
        ghost var st := BatchVisit(m, store.rejects, bs[i]);
        ghost var results0, processed0, progress0 := results, processed, progress;
        results, processed, progress := BatchIteration(bookmarks, store, i, m, reportProgress, results, processed, progress);
        BatchSoFarStep(m, store.rejects, bs, i, before, writes, texts, results0, processed0, progress0, reportProgress,
                       bookmarks[..], results, processed, progress);
        AppendAssoc(log0, [], writes, st.written);
        AppendAssoc(emb0, [], texts, st.embedded);
        writes, texts := writes + st.written, texts + st.embedded;
      }
      assert bs[..bookmarks.Length] == bs;
    }

    /** The `try` block of the batch loop for the bookmark at index i: the
        accumulators `results`, `processed` and the callback calls after it. */
    method BatchIteration(bookmarks: array<Bookmark>, store: LocalStorage, i: nat, ghost m: Option<Embedder>,
                          reportProgress: bool, results: seq<EmbeddingRecord>, processed: nat,
                          progress: seq<(nat, nat)>)
      returns (results': seq<EmbeddingRecord>, processed': nat, progress': seq<(nat, nat)>)
      requires i < bookmarks.Length && m == LazyInit(State(), transformers).model
      modifies this, bookmarks, store
      ensures State() == LazyInit(old(State()), transformers)
      ensures var st := BatchVisit(m, store.rejects, old(bookmarks[i]));
              && bookmarks[..] == old(bookmarks[..])[i := st.after]
              && store.log == old(store.log) + st.written
              && embedLog == old(embedLog) + st.embedded
              && results' == results + Pushed(st)
              && processed' == processed + |Pushed(st)|
              && progress' == if reportProgress && st.outcome.Success?
                              then progress + [(processed + 1, bookmarks.Length)] else progress
    {
      results', processed', progress' := results, processed, progress;
      var b := bookmarks[i];
      var text := SearchText(b);
      var v := Embed(text);
      if v.Failure? {
        return;
      }
      if b.enhanced.Some? {
        b := WithEmbedding(b, v.value);
        bookmarks[i] := b;
        var stored := store.Set(CacheKey(b.id), b.enhanced.value);
        if !stored {
          return;
        }
      }
      results' := results + [EmbeddingRecord(b.id, v.value)];
      processed' := processed + 1;
      if reportProgress {
        progress' := progress + [(processed', bookmarks.Length)];
      }
    }
  }
}
