/** What one call of `batchEmbed` promises: which bookmarks yield an
    embedding record, what is embedded and stored, and that afterwards a
    search finds every enrichment record's embedding cached. */
module BatchProperties {
  import opened Wrappers
  import opened Records
  import opened Storage
  import opened Backend
  import opened SearchPass
  import opened SearchProperties

  /** The iteration for b pushes a record: its text is embedded and a
      needed storage write is accepted. */
  predicate BatchOk(f: Embedder, rejects: set<string>, b: Bookmark)
  {
    SearchText(b) in f && (b.enhanced.None? || CacheKey(b.id) !in rejects)
  }

  /** The bookmark after its batch iteration: the fresh embedding replaces
      whatever its enrichment record held, even a cached one. */
  function Refreshed(f: Embedder, b: Bookmark): Bookmark
  {
    if b.enhanced.Some? && SearchText(b) in f then WithEmbedding(b, f[SearchText(b)]) else b
  }

  /** The positions of the bookmarks that yield a record, strictly increasing. */
  function OkIndices(f: Embedder, rejects: set<string>, bs: seq<Bookmark>): (idx: seq<nat>)
    ensures forall j :: 0 <= j < |idx| ==> idx[j] < |bs| && BatchOk(f, rejects, bs[idx[j]])
    ensures forall j, k :: 0 <= j < k < |idx| ==> idx[j] < idx[k]
    decreases |bs|
  {
    if bs == [] then []
    else
      var n := |bs| - 1;
      var prev := OkIndices(f, rejects, bs[..n]);
      assert forall j :: 0 <= j < |prev| ==> bs[..n][prev[j]] == bs[prev[j]];
      prev + (if BatchOk(f, rejects, bs[n]) then [n] else [])
  }

  /** Every position that yields a record is listed. */
  lemma {:induction false} OkIndicesComplete(f: Embedder, rejects: set<string>, bs: seq<Bookmark>, i: nat)
    requires i < |bs| && BatchOk(f, rejects, bs[i])
    ensures i in OkIndices(f, rejects, bs)
    decreases |bs|
  {
    var n := |bs| - 1;
    var prev := OkIndices(f, rejects, bs[..n]);
    assert OkIndices(f, rejects, bs) == prev + (if BatchOk(f, rejects, bs[n]) then [n] else []);
    if i < n {
      assert bs[..n][i] == bs[i];
      OkIndicesComplete(f, rejects, bs[..n], i);
    }
  }

  /** Without a model nothing is embedded, changed, written or collected. */
  lemma {:induction false} BatchWithoutModel(rejects: set<string>, bs: seq<Bookmark>)
    ensures BatchRun(None, rejects, bs) == Batch(bs, [], [], [])
    decreases |bs|
  {
    if bs != [] {
      var n := |bs| - 1;
      BatchWithoutModel(rejects, bs[..n]);
      assert bs[..n] + [bs[n]] == bs;
    }
  }

  /** One batch iteration with a model: it embeds the text, refreshes the
      bookmark and pushes the bookmark's record exactly when it is BatchOk. */
  lemma BatchVisitWith(f: Embedder, rejects: set<string>, b: Bookmark)
    ensures var st := BatchVisit(Some(f), rejects, b);
            && st.embedded == [SearchText(b)]
            && st.after == Refreshed(f, b)
            && Pushed(st) == if BatchOk(f, rejects, b) then [EmbeddingRecord(b.id, f[SearchText(b)])] else []
  {
  }

  /** The batch run with a model, split at its last bookmark. */
  lemma BatchRunLast(f: Embedder, rejects: set<string>, bs: seq<Bookmark>)
    requires bs != []
    ensures var n := |bs| - 1;
            var p, q := BatchRun(Some(f), rejects, bs), BatchRun(Some(f), rejects, bs[..n]);
            && p.embedded == q.embedded + [SearchText(bs[n])]
            && p.bookmarks == q.bookmarks + [Refreshed(f, bs[n])]
            && p.results == q.results + (if BatchOk(f, rejects, bs[n]) then [EmbeddingRecord(bs[n].id, f[SearchText(bs[n])])] else [])
  {
    BatchVisitWith(f, rejects, bs[|bs| - 1]);
  }

  lemma {:induction false} BatchEmbeddedLength(f: Embedder, rejects: set<string>, bs: seq<Bookmark>)
    ensures |BatchRun(Some(f), rejects, bs).embedded| == |bs|
    decreases |bs|
  {
    if bs != [] {
      BatchRunLastEmbedded(f, rejects, bs);
      BatchEmbeddedLength(f, rejects, bs[..|bs| - 1]);
    }
  }

  lemma BatchRunLastEmbedded(f: Embedder, rejects: set<string>, bs: seq<Bookmark>)
    requires bs != []
    ensures BatchRun(Some(f), rejects, bs).embedded
            == BatchRun(Some(f), rejects, bs[..|bs| - 1]).embedded + [SearchText(bs[|bs| - 1])]
  {
    BatchVisitWith(f, rejects, bs[|bs| - 1]);
  }

  lemma BatchRunLastBookmarks(f: Embedder, rejects: set<string>, bs: seq<Bookmark>)
    requires bs != []
    ensures BatchRun(Some(f), rejects, bs).bookmarks
            == BatchRun(Some(f), rejects, bs[..|bs| - 1]).bookmarks + [Refreshed(f, bs[|bs| - 1])]
  {
    BatchVisitWith(f, rejects, bs[|bs| - 1]);
  }

  /** The batch embeds the text of bookmark k, cached embedding or not. */
  lemma {:induction false} BatchEmbeddedAt(f: Embedder, rejects: set<string>, bs: seq<Bookmark>, k: nat)
    requires k < |bs|
    ensures var e := BatchRun(Some(f), rejects, bs).embedded;
            k < |e| && e[k] == SearchText(bs[k])
    decreases |bs|
  {
    var n := |bs| - 1;
    var e, e' := BatchRun(Some(f), rejects, bs).embedded, BatchRun(Some(f), rejects, bs[..n]).embedded;
    BatchRunLastEmbedded(f, rejects, bs);
    BatchEmbeddedLength(f, rejects, bs[..n]);
    SnocAt(e', SearchText(bs[n]), k);
    if k < n {
      assert bs[..n][k] == bs[k];
      BatchEmbeddedAt(f, rejects, bs[..n], k);
    }
  }

  /** The batch refreshes bookmark k, also when it is skipped because its
      write fails. */
  lemma {:induction false} BatchBookmarkAt(f: Embedder, rejects: set<string>, bs: seq<Bookmark>, k: nat)
    requires k < |bs|
    ensures BatchRun(Some(f), rejects, bs).bookmarks[k] == Refreshed(f, bs[k])
    decreases |bs|
  {
    var n := |bs| - 1;
    var c, c' := BatchRun(Some(f), rejects, bs).bookmarks, BatchRun(Some(f), rejects, bs[..n]).bookmarks;
    BatchRunLastBookmarks(f, rejects, bs);
    if k < n {
      BatchBookmarkAt(f, rejects, bs[..n], k);
      assert c[k] == c'[k];
      assert bs[..n][k] == bs[k];
    }
  }

  /** With a model every bookmark's text is embedded, in order, and every
      bookmark is refreshed. */
  lemma BatchEmbedsAll(f: Embedder, rejects: set<string>, bs: seq<Bookmark>)
    ensures var p := BatchRun(Some(f), rejects, bs);
            && |p.embedded| == |bs|
            && forall k :: 0 <= k < |bs| ==> p.embedded[k] == SearchText(bs[k]) && p.bookmarks[k] == Refreshed(f, bs[k])
  {
    BatchEmbeddedLength(f, rejects, bs);
    forall k | 0 <= k < |bs|
      ensures var p := BatchRun(Some(f), rejects, bs);
              p.embedded[k] == SearchText(bs[k]) && p.bookmarks[k] == Refreshed(f, bs[k])
    {
      BatchEmbeddedAt(f, rejects, bs, k);
      BatchBookmarkAt(f, rejects, bs, k);
    }
  }

  lemma {:induction false} BatchResultsLength(f: Embedder, rejects: set<string>, bs: seq<Bookmark>)
    ensures |BatchRun(Some(f), rejects, bs).results| == |OkIndices(f, rejects, bs)|
    decreases |bs|
  {
    if bs != [] {
      BatchRunLast(f, rejects, bs);
      BatchResultsLength(f, rejects, bs[..|bs| - 1]);
    }
  }

  lemma {:induction false} BatchResultAt(f: Embedder, rejects: set<string>, bs: seq<Bookmark>, j: nat)
    requires j < |OkIndices(f, rejects, bs)|
    ensures var r, idx := BatchRun(Some(f), rejects, bs).results, OkIndices(f, rejects, bs);
            |r| == |idx| && r[j] == EmbeddingRecord(bs[idx[j]].id, f[SearchText(bs[idx[j]])])
    decreases |bs|
  {
    var n := |bs| - 1;
    BatchRunLast(f, rejects, bs);
    BatchResultsLength(f, rejects, bs);
    BatchResultsLength(f, rejects, bs[..n]);
    var idx' := OkIndices(f, rejects, bs[..n]);
    if j < |idx'| {
      BatchResultAt(f, rejects, bs[..n], j);
      assert bs[..n][idx'[j]] == bs[idx'[j]];
    }
  }

  /** The collected records are one per bookmark that yields one, in input
      order, each holding the bookmark's id and its text's embedding. */
  lemma BatchResults(f: Embedder, rejects: set<string>, bs: seq<Bookmark>)
    ensures var r, idx := BatchRun(Some(f), rejects, bs).results, OkIndices(f, rejects, bs);
            && |r| == |idx|
            && forall j :: 0 <= j < |r| ==> r[j] == EmbeddingRecord(bs[idx[j]].id, f[SearchText(bs[idx[j]])])
  {
    BatchResultsLength(f, rejects, bs);
    forall j | 0 <= j < |OkIndices(f, rejects, bs)|
      ensures var r, idx := BatchRun(Some(f), rejects, bs).results, OkIndices(f, rejects, bs);
              r[j] == EmbeddingRecord(bs[idx[j]].id, f[SearchText(bs[idx[j]])])
    {
      BatchResultAt(f, rejects, bs, j);
    }
  }

  /** After a batch in which every bookmark yields a record, a search with
      the same model writes nothing to storage: every enrichment record
      already holds its embedding. */
  lemma BatchWarmsCache(f: Embedder, rejects: set<string>, query: string, bs: seq<Bookmark>, topK: nat)
    requires forall k :: 0 <= k < |bs| ==> BatchOk(f, rejects, bs[k])
    ensures var cs := BatchRun(Some(f), rejects, bs).bookmarks;
            && (forall k :: 0 <= k < |cs| ==> CachedEmbedding(cs[k]).None? ==> cs[k].enhanced.None?)
            && SearchSpec(Some(f), rejects, query, cs, topK).writes == []
  {
    var cs := BatchRun(Some(f), rejects, bs).bookmarks;
    BatchEmbedsAll(f, rejects, bs);
    NoPendingWrites(f, cs);
    if Output(f, query).Some? {
      RunCaching(f, rejects, Output(f, query).value, cs, 0);
      assert cs[0..] == cs;
    }
  }

  lemma SnocAt<T>(s: seq<T>, x: T, k: nat)
    requires k <= |s|
    ensures (s + [x])[k] == if k < |s| then s[k] else x
  {
  }
}
