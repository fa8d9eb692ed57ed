/** What one search promises: which iterations succeed, what a successful
    pass scores and ranks, what it embeds and writes, when it falls back,
    and that repeating it changes nothing. */
module SearchProperties {
  import opened Wrappers
  import opened Records
  import opened Fallback
  import opened Similarity
  import opened Ranking
  import opened Storage
  import opened Backend
  import opened SearchPass

  /** The embedding the loop compares with the query: the cached one, or
      the model's output for the search text. */
  function UsedEmbedding(f: Embedder, b: Bookmark): Option<seq<real>>
  {
    if CachedEmbedding(b).Some? then CachedEmbedding(b) else Output(f, SearchText(b))
  }

  /** The bookmark after a successful iteration: an embedding computed for
      a bookmark with an enrichment record is stored into that record. */
  function Updated(f: Embedder, b: Bookmark): Bookmark
  {
    if CachedEmbedding(b).None? && b.enhanced.Some? && SearchText(b) in f
    then WithEmbedding(b, f[SearchText(b)]) else b
  }

  /** The iteration for b does not throw: an embedding is at hand, it has
      the query's length, and a needed storage write is accepted. */
  predicate ItemOk(f: Embedder, rejects: set<string>, qv: seq<real>, b: Bookmark)
  {
    && UsedEmbedding(f, b).Some?
    && |UsedEmbedding(f, b).value| == |qv|
    && (CachedEmbedding(b).Some? || b.enhanced.None? || CacheKey(b.id) !in rejects)
  }

  /** One iteration succeeds exactly when its bookmark is ItemOk; it then
      leaves the updated bookmark and scores it against its embedding. */
  lemma VisitOk(f: Embedder, rejects: set<string>, qv: seq<real>, b: Bookmark, pos: nat)
    ensures var st := Visit(f, rejects, qv, b, pos);
            && (st.outcome.Success? <==> ItemOk(f, rejects, qv, b))
            && (st.outcome.Success? ==>
                  st.after == Updated(f, b)
                  && st.outcome.value == Scored(Updated(f, b), Similar(qv, UsedEmbedding(f, b).value), pos))
  {
  }

  /** The search loop runs to the end exactly when every bookmark is ItemOk. */
  lemma RunSucceedsIff(f: Embedder, rejects: set<string>, qv: seq<real>, bs: seq<Bookmark>, i: nat)
    requires i <= |bs|
    ensures Run(f, rejects, qv, bs, i).failure.None?
            <==> forall k :: i <= k < |bs| ==> ItemOk(f, rejects, qv, bs[k])
    decreases |bs| - i
  {
    if i < |bs| {
      VisitOk(f, rejects, qv, bs[i], i);
      RunSucceedsIff(f, rejects, qv, bs, i + 1);
    }
  }

  /** A loop that runs to the end scores every bookmark, in input order,
      against the embedding it used, and leaves each bookmark updated. */
  lemma {:induction false} RunScoresAll(f: Embedder, rejects: set<string>, qv: seq<real>, bs: seq<Bookmark>, i: nat)
    requires i <= |bs| && Run(f, rejects, qv, bs, i).failure.None?
    ensures var p := Run(f, rejects, qv, bs, i);
            && |p.entries| == |bs| - i
            && forall k :: 0 <= k < |bs| - i ==>
                 && p.bookmarks[k] == Updated(f, bs[i + k])
                 && ItemOk(f, rejects, qv, bs[i + k])
                 && p.entries[k] == Scored(Updated(f, bs[i + k]), Similar(qv, UsedEmbedding(f, bs[i + k]).value), i + k)
    decreases |bs| - i
  {
    if i < |bs| {
      VisitOk(f, rejects, qv, bs[i], i);
      RunScoresAll(f, rejects, qv, bs, i + 1);
      var p, rest := Run(f, rejects, qv, bs, i), Run(f, rejects, qv, bs, i + 1);
      forall k | 0 <= k < |bs| - i
        ensures && p.bookmarks[k] == Updated(f, bs[i + k])
                && ItemOk(f, rejects, qv, bs[i + k])
                && p.entries[k] == Scored(Updated(f, bs[i + k]), Similar(qv, UsedEmbedding(f, bs[i + k]).value), i + k)
      {
        if k > 0 {
          assert p.bookmarks[k] == rest.bookmarks[k - 1] && p.entries[k] == rest.entries[k - 1];
          assert i + 1 + (k - 1) == i + k;
        }
      }
    }
  }

  /** The loop only ever stores embeddings: titles, urls, descriptions and
      ids are untouched, also when it stops early. */
  lemma {:induction false} RunKeepsTexts(f: Embedder, rejects: set<string>, qv: seq<real>, bs: seq<Bookmark>, i: nat)
    requires i <= |bs|
    ensures SameTexts(Run(f, rejects, qv, bs, i).bookmarks, bs[i..])
    decreases |bs| - i
  {
    if i < |bs| {
      var p := Run(f, rejects, qv, bs, i);
      var st := Visit(f, rejects, qv, bs[i], i);
      assert SameText(st.after, bs[i]);
      if st.outcome.Success? {
        RunKeepsTexts(f, rejects, qv, bs, i + 1);
        assert p.bookmarks == [st.after] + Run(f, rejects, qv, bs, i + 1).bookmarks;
      }
      assert bs[i..] == [bs[i]] + bs[i + 1..];
    }
  }

  /** The texts of the bookmarks without a cached embedding, in order:
      what the loop passes to the model. */
  function UncachedTexts(bs: seq<Bookmark>): seq<string>
  {
    if bs == [] then []
    else (if CachedEmbedding(bs[0]).Some? then [] else [SearchText(bs[0])]) + UncachedTexts(bs[1..])
  }

  /** The storage writes for the bookmarks with an enrichment record but no
      cached embedding whose text the model embeds, in order. */
  function CacheWrites(f: Embedder, bs: seq<Bookmark>): seq<Write>
  {
    if bs == [] then []
    else
      var b := bs[0];
      (if CachedEmbedding(b).None? && b.enhanced.Some? && SearchText(b) in f
       then [Write(CacheKey(b.id), Updated(f, b).enhanced.value)] else [])
      + CacheWrites(f, bs[1..])
  }

  /** A bookmark with a cached embedding is neither embedded again nor
      written back: the loop embeds a prefix of the uncached texts and
      writes a prefix of the cache writes, all of them when it runs to the end. */
  lemma {:induction false} RunCaching(f: Embedder, rejects: set<string>, qv: seq<real>, bs: seq<Bookmark>, i: nat)
    requires i <= |bs|
    ensures var p := Run(f, rejects, qv, bs, i);
            && p.embedded <= UncachedTexts(bs[i..])
            && p.writes <= CacheWrites(f, bs[i..])
            && (p.failure.None? ==> p.embedded == UncachedTexts(bs[i..]) && p.writes == CacheWrites(f, bs[i..]))
    decreases |bs| - i
  {
    if i < |bs| {
      var st := Visit(f, rejects, qv, bs[i], i);
      assert bs[i..][0] == bs[i] && bs[i..][1..] == bs[i + 1..];
      var us, ws := UncachedTexts(bs[i + 1..]), CacheWrites(f, bs[i + 1..]);
      assert UncachedTexts(bs[i..]) == st.embedded + us;
      if st.outcome.Success? {
        assert CacheWrites(f, bs[i..]) == st.written + ws;
        RunCaching(f, rejects, qv, bs, i + 1);
        var rest := Run(f, rejects, qv, bs, i + 1);
        PrefixAppend(st.embedded, rest.embedded, us);
        PrefixAppend(st.written, rest.writes, ws);
      } else {
        assert st.written <= CacheWrites(f, bs[i..]);
      }
    }
  }

  lemma PrefixAppend<T>(a: seq<T>, b: seq<T>, c: seq<T>)
    requires b <= c
    ensures a + b <= a + c
  {
    assert (a + c)[..|a + b|] == a + b;
  }

  /** A list whose every bookmark carries an embedding costs one model
      call, for the query, and writes nothing. */
  lemma AllCachedEmbedsOnlyQuery(f: Embedder, rejects: set<string>, query: string, bs: seq<Bookmark>, topK: nat)
    requires Output(f, query).Some?
    requires forall k :: 0 <= k < |bs| ==> CachedEmbedding(bs[k]).Some?
    ensures var o := SearchSpec(Some(f), rejects, query, bs, topK);
            o.embedded == [query] && o.writes == []
  {
    RunCaching(f, rejects, Output(f, query).value, bs, 0);
    NothingUncached(f, bs);
  }

  lemma {:induction false} NothingUncached(f: Embedder, bs: seq<Bookmark>)
    requires forall k :: 0 <= k < |bs| ==> CachedEmbedding(bs[k]).Some?
    ensures UncachedTexts(bs) == [] && CacheWrites(f, bs) == []
  {
    if bs != [] {
      NothingUncached(f, bs[1..]);
    }
  }

  /** Search leaves every bookmark's id, title, url and description as it was. */
  lemma SearchKeepsTexts(m: Option<Embedder>, rejects: set<string>, query: string, bs: seq<Bookmark>, topK: nat)
    ensures SameTexts(SearchSpec(m, rejects, query, bs, topK).bookmarks, bs)
  {
    if m.Some? && Output(m.value, query).Some? {
      RunKeepsTexts(m.value, rejects, Output(m.value, query).value, bs, 0);
    }
  }

  /** The semantic path is taken when the model is loaded, the query is
      embedded and every bookmark is ItemOk. */
  predicate SemanticPath(m: Option<Embedder>, rejects: set<string>, query: string, bs: seq<Bookmark>)
  {
    && m.Some? && Output(m.value, query).Some?
    && forall k :: 0 <= k < |bs| ==> ItemOk(m.value, rejects, Output(m.value, query).value, bs[k])
  }

  /** Without the semantic path the result is the keyword fallback, and it
      holds the same bookmarks the fallback over the input would. */
  lemma SearchFallsBack(m: Option<Embedder>, rejects: set<string>, query: string, bs: seq<Bookmark>, topK: nat)
    requires !SemanticPath(m, rejects, query, bs)
    ensures var o := SearchSpec(m, rejects, query, bs, topK);
            && o.result == FallbackSearch(query, o.bookmarks, topK)
            && SameTexts(o.result, FallbackSearch(query, bs, topK))
  {
    SearchKeepsTexts(m, rejects, query, bs, topK);
    var o := SearchSpec(m, rejects, query, bs, topK);
    FallbackSameTexts(query, o.bookmarks, bs, topK);
    if m.Some? && Output(m.value, query).Some? {
      RunSucceedsIff(m.value, rejects, Output(m.value, query).value, bs, 0);
    }
  }

  /** Each sorted entry is the entry the loop made for its position. */
  lemma SortedEntries(f: Embedder, rejects: set<string>, qv: seq<real>, bs: seq<Bookmark>)
    requires Run(f, rejects, qv, bs, 0).failure.None?
    ensures var p := Run(f, rejects, qv, bs, 0);
            var ranked := SortBySimilarity(p.entries);
            && |ranked| == |bs|
            && DistinctPositions(ranked)
            && (Numeric(p.entries) ==> Ranked(ranked))
            && forall j :: 0 <= j < |ranked| ==> ranked[j].pos < |bs| && ranked[j] == p.entries[ranked[j].pos]
  {
    var p := Run(f, rejects, qv, bs, 0);
    RunScoresAll(f, rejects, qv, bs, 0);
    var ranked := SortBySimilarity(p.entries);
    assert InInputOrder(p.entries);
    SortDistinct(p.entries);
    if Numeric(p.entries) {
      SortRanked(p.entries);
    }
    forall j | 0 <= j < |ranked|
      ensures ranked[j].pos < |bs| && ranked[j] == p.entries[ranked[j].pos]
    {
      assert ranked[j] in multiset(p.entries);
      assert ranked[j] in p.entries;
    }
  }

  /** On the semantic path the result holds min(topK, n) bookmarks taken
      from the stable descending sort of all n scored entries, no bookmark
      twice, ranked whenever every similarity is a number. */
  lemma SemanticRanking(f: Embedder, rejects: set<string>, query: string, bs: seq<Bookmark>, topK: nat)
    requires SemanticPath(Some(f), rejects, query, bs)
    ensures var qv := Output(f, query).value;
            var o := SearchSpec(Some(f), rejects, query, bs, topK);
            var entries := Run(f, rejects, qv, bs, 0).entries;
            var ranked := SortBySimilarity(entries);
            && |o.result| == Min(topK, |bs|)
            && |ranked| == |bs|
            && DistinctPositions(ranked)
            && (Numeric(entries) ==> Ranked(ranked))
            && forall j :: 0 <= j < |o.result| ==> o.result[j] == ranked[j].bookmark
  {
    var qv := Output(f, query).value;
    var p := Run(f, rejects, qv, bs, 0);
    RunSucceedsIff(f, rejects, qv, bs, 0);
    SortedEntries(f, rejects, qv, bs);
    SearchSpecLoaded(f, rejects, query, qv, bs, topK, p);
  }

  /** On the semantic path each sorted entry is the bookmark at its
      position, as the search leaves it, scored against the embedding it
      used. */
  lemma SemanticResult(f: Embedder, rejects: set<string>, query: string, bs: seq<Bookmark>, topK: nat)
    requires SemanticPath(Some(f), rejects, query, bs)
    ensures var qv := Output(f, query).value;
            var o := SearchSpec(Some(f), rejects, query, bs, topK);
            var ranked := SortBySimilarity(Run(f, rejects, qv, bs, 0).entries);
            forall j :: 0 <= j < |ranked| ==>
              && ranked[j].pos < |bs|
              && ItemOk(f, rejects, qv, bs[ranked[j].pos])
              && ranked[j].bookmark == o.bookmarks[ranked[j].pos]
              && ranked[j].similarity == Similar(qv, UsedEmbedding(f, bs[ranked[j].pos]).value)
  {
    var qv := Output(f, query).value;
    var p := Run(f, rejects, qv, bs, 0);
    RunSucceedsIff(f, rejects, qv, bs, 0);
    RunScoresAll(f, rejects, qv, bs, 0);
    SortedEntries(f, rejects, qv, bs);
    SearchSpecLoaded(f, rejects, query, qv, bs, topK, p);
    var ranked := SortBySimilarity(p.entries);
    forall j | 0 <= j < |ranked|
      ensures && ranked[j].pos < |bs|
              && ItemOk(f, rejects, qv, bs[ranked[j].pos])
              && ranked[j].bookmark == p.bookmarks[ranked[j].pos]
              && ranked[j].similarity == Similar(qv, UsedEmbedding(f, bs[ranked[j].pos]).value)
    {
      var k := ranked[j].pos;
      assert ranked[j] == p.entries[k];
      assert p.entries[k] == Scored(Updated(f, bs[k]), Similar(qv, UsedEmbedding(f, bs[k]).value), k);
    }
  }

  /** A bookmark the loop updated needs no further update and gives the
      same embedding again. */
  lemma UpdatedStable(f: Embedder, rejects: set<string>, qv: seq<real>, b: Bookmark)
    requires ItemOk(f, rejects, qv, b)
    ensures var c := Updated(f, b);
            && Updated(f, c) == c
            && UsedEmbedding(f, c) == UsedEmbedding(f, b)
            && ItemOk(f, rejects, qv, c)
            && (CachedEmbedding(c).None? ==> c.enhanced.None?)
  {
  }

  lemma {:induction false} NoPendingWrites(f: Embedder, cs: seq<Bookmark>)
    requires forall k :: 0 <= k < |cs| ==> CachedEmbedding(cs[k]).None? ==> cs[k].enhanced.None?
    ensures CacheWrites(f, cs) == []
  {
    if cs != [] {
      NoPendingWrites(f, cs[1..]);
    }
  }

  /** Running the loop again over the bookmarks a full run left behind
      scores them the same, changes none of them and writes nothing. */
  lemma RunAgain(f: Embedder, rejects: set<string>, qv: seq<real>, bs: seq<Bookmark>)
    requires Run(f, rejects, qv, bs, 0).failure.None?
    ensures var p := Run(f, rejects, qv, bs, 0);
            Run(f, rejects, qv, p.bookmarks, 0) == Pass(p.bookmarks, p.entries, [], UncachedTexts(p.bookmarks), None)
  {
    var p := Run(f, rejects, qv, bs, 0);
    var cs := p.bookmarks;
    RunSucceedsIff(f, rejects, qv, bs, 0);
    RunScoresAll(f, rejects, qv, bs, 0);
    forall k | 0 <= k < |cs|
      ensures && ItemOk(f, rejects, qv, cs[k]) && Updated(f, cs[k]) == cs[k]
              && UsedEmbedding(f, cs[k]) == UsedEmbedding(f, bs[k])
              && (CachedEmbedding(cs[k]).None? ==> cs[k].enhanced.None?)
    {
      UpdatedStable(f, rejects, qv, bs[k]);
    }
    RunSucceedsIff(f, rejects, qv, cs, 0);
    RunScoresAll(f, rejects, qv, cs, 0);
    RunCaching(f, rejects, qv, cs, 0);
    NoPendingWrites(f, cs);
    var p2 := Run(f, rejects, qv, cs, 0);
    assert cs[0..] == cs;
    assert p2.bookmarks == cs;
    assert p2.entries == p.entries;
  }

  /** Searching again right after a search that took the semantic path
      returns the same bookmarks in the same order, leaves the list as it
      is and writes nothing; only the query and the texts of bookmarks
      without an enrichment record are embedded again. */
  lemma SearchTwice(f: Embedder, rejects: set<string>, query: string, bs: seq<Bookmark>, topK: nat)
    requires SemanticPath(Some(f), rejects, query, bs)
    ensures var o := SearchSpec(Some(f), rejects, query, bs, topK);
            && SearchSpec(Some(f), rejects, query, o.bookmarks, topK)
               == SearchOutcome(o.result, o.bookmarks, [], [query] + UncachedTexts(o.bookmarks))
            && forall k :: 0 <= k < |o.bookmarks| ==>
                 CachedEmbedding(o.bookmarks[k]).None? ==> o.bookmarks[k].enhanced.None?
  {
    var qv := Output(f, query).value;
    var p := Run(f, rejects, qv, bs, 0);
    RunSucceedsIff(f, rejects, qv, bs, 0);
    SearchSpecLoaded(f, rejects, query, qv, bs, topK, p);
    RunAgain(f, rejects, qv, bs);
    SearchSpecLoaded(f, rejects, query, qv, p.bookmarks, topK, Run(f, rejects, qv, p.bookmarks, 0));
    RunScoresAll(f, rejects, qv, bs, 0);
    forall k | 0 <= k < |p.bookmarks|
      ensures CachedEmbedding(p.bookmarks[k]).None? ==> p.bookmarks[k].enhanced.None?
    {
      UpdatedStable(f, rejects, qv, bs[k]);
    }
  }
}
