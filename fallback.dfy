/** The lexical fallback of the engine: an order-preserving, case-insensitive
    substring filter over title, url and description, cut to topK. */
module Fallback {
  import opened Wrappers
  import opened Records
  import opened Text

  /** The filter callback: the lower-cased query occurs in the lower-cased
      title, url or description, missing fields read as the empty string. */
  predicate Matches(lowerQuery: string, b: Bookmark)
  {
    || Contains(Lower(OrEmpty(b.title)), lowerQuery)
    || Contains(Lower(OrEmpty(b.url)), lowerQuery)
    || Contains(Lower(Description(b)), lowerQuery)
  }

  /** `bookmarks.filter(...)`: the matching bookmarks, in input order. */
  function Filter(lowerQuery: string, bs: seq<Bookmark>): (r: seq<Bookmark>)
    ensures |r| <= |bs|
    ensures forall b :: b in r ==> b in bs && Matches(lowerQuery, b)
  {
    if bs == [] then []
    else
      var last := bs[|bs| - 1];
      Filter(lowerQuery, bs[..|bs| - 1]) + (if Matches(lowerQuery, last) then [last] else [])
  }

  /** The positions of the matching bookmarks, strictly increasing. */
  function MatchIndices(lowerQuery: string, bs: seq<Bookmark>): (idx: seq<nat>)
    ensures forall j :: 0 <= j < |idx| ==> idx[j] < |bs| && Matches(lowerQuery, bs[idx[j]])
    ensures forall j, k :: 0 <= j < k < |idx| ==> idx[j] < idx[k]
  {
    if bs == [] then []
    else
      var n := |bs| - 1;
      MatchIndices(lowerQuery, bs[..n]) + (if Matches(lowerQuery, bs[n]) then [n] else [])
  }

  /** `fallbackSearch(query, bookmarks, topK)` */
  function FallbackSearch(query: string, bookmarks: seq<Bookmark>, topK: nat): (r: seq<Bookmark>)
    ensures |r| <= topK
    ensures forall b :: b in r ==> b in bookmarks && Matches(Lower(query), b)
  {
    var matches := Filter(Lower(query), bookmarks);
    if topK < |matches| then matches[..topK] else matches
  }

  /** Every matching position is listed. */
  lemma {:induction false} MatchIndicesComplete(lowerQuery: string, bs: seq<Bookmark>, i: nat)
    requires i < |bs| && Matches(lowerQuery, bs[i])
    ensures i in MatchIndices(lowerQuery, bs)
  {
    var n := |bs| - 1;
    if i < n {
      assert bs[..n][i] == bs[i];
      MatchIndicesComplete(lowerQuery, bs[..n], i);
    }
  }

  /** The filter lists the bookmarks at the match positions, in that order. */
  lemma {:induction false} FilterAt(lowerQuery: string, bs: seq<Bookmark>)
    ensures |Filter(lowerQuery, bs)| == |MatchIndices(lowerQuery, bs)|
    ensures forall j :: 0 <= j < |Filter(lowerQuery, bs)| ==>
      Filter(lowerQuery, bs)[j] == bs[MatchIndices(lowerQuery, bs)[j]]
  {
    if bs != [] {
      var n := |bs| - 1;
      FilterAt(lowerQuery, bs[..n]);
      var r', idx' := Filter(lowerQuery, bs[..n]), MatchIndices(lowerQuery, bs[..n]);
      var r, idx := Filter(lowerQuery, bs), MatchIndices(lowerQuery, bs);
      assert r[..|r'|] == r' && idx[..|idx'|] == idx';
      forall j | 0 <= j < |r|
        ensures r[j] == bs[idx[j]]
      {
        if j < |r'| {
          assert r[j] == r'[j] && idx[j] == idx'[j];
          assert bs[..n][idx'[j]] == bs[idx'[j]];
        }
      }
    }
  }

  /** The fallback returns exactly the first min(topK, #matches) matching
      bookmarks, in input order. */
  lemma FallbackIsFirstMatches(query: string, bs: seq<Bookmark>, topK: nat)
    ensures var r, idx := FallbackSearch(query, bs, topK), MatchIndices(Lower(query), bs);
      && |r| == Min(topK, |idx|)
      && forall j :: 0 <= j < |r| ==> r[j] == bs[idx[j]]
  {
    FilterAt(Lower(query), bs);
  }

  /** Letter case in the query does not change the result. */
  lemma FallbackIgnoresQueryCase(query: string, query': string, bs: seq<Bookmark>, topK: nat)
    requires SameUpToCase(query, query')
    ensures FallbackSearch(query, bs, topK) == FallbackSearch(query', bs, topK)
  {
    LowerSameUpToCase(query, query');
  }

  lemma {:induction false} FilterEmptyQuery(bs: seq<Bookmark>)
    ensures Filter("", bs) == bs
  {
    if bs != [] {
      FilterEmptyQuery(bs[..|bs| - 1]);
      ContainsEmpty(Lower(OrEmpty(bs[|bs| - 1].title)));
      assert bs[..|bs| - 1] + [bs[|bs| - 1]] == bs;
    }
  }

  /** The empty query matches every bookmark. */
  lemma FallbackEmptyQuery(bs: seq<Bookmark>, topK: nat)
    ensures FallbackSearch("", bs, topK) == bs[..Min(topK, |bs|)]
  {
    FilterEmptyQuery(bs);
  }

  lemma {:induction false} FilterSameTexts(lowerQuery: string, bs: seq<Bookmark>, cs: seq<Bookmark>)
    requires SameTexts(bs, cs)
    ensures SameTexts(Filter(lowerQuery, bs), Filter(lowerQuery, cs))
  {
    if bs != [] {
      FilterSameTexts(lowerQuery, bs[..|bs| - 1], cs[..|cs| - 1]);
    }
  }

  /** The fallback reads only title, url and description: lists that differ
      only in cached embeddings give results that differ only in those. */
  lemma FallbackSameTexts(query: string, bs: seq<Bookmark>, cs: seq<Bookmark>, topK: nat)
    requires SameTexts(bs, cs)
    ensures SameTexts(FallbackSearch(query, bs, topK), FallbackSearch(query, cs, topK))
  {
    FilterSameTexts(Lower(query), bs, cs);
  }
}
