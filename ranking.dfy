/** The ordering step of the semantic search: `results.sort((a, b) =>
    b.similarity - a.similarity)` followed by `slice(0, topK)` and
    `map(r => r.bookmark)`. Array.prototype.sort is stable (ECMA-262 since
    its 2019 edition), so it is specified here by a stable insertion sort. */
module Ranking {
  import opened Wrappers
  import opened Records
  import opened Similarity

  /** `{ bookmark, similarity }` as pushed onto `results`; `pos` is the
      bookmark's index in the input, which is what stability refers to. */
  datatype Scored = Scored(bookmark: Bookmark, similarity: Cosine, pos: nat)

  function Score(x: Scored): Number
  {
    Key(x.similarity)
  }

  /** The comparator puts x before y: `y.similarity - x.similarity > 0`.
      A NaN difference is read as 0, that is as "equal" (ECMA-262 SortCompare). */
  predicate Greater(x: Scored, y: Scored)
  {
    Score(x).Num? && Score(y).Num? && Score(x).value > Score(y).value
  }

  /** Inserts x behind every element it does not beat. */
  function Insert(sorted: seq<Scored>, x: Scored): (r: seq<Scored>)
    ensures multiset(r) == multiset(sorted) + multiset{x} && |r| == |sorted| + 1
  {
    if sorted == [] || !Greater(x, sorted[|sorted| - 1]) then sorted + [x]
    else
      var n := |sorted| - 1;
      assert sorted == sorted[..n] + [sorted[n]];
      Insert(sorted[..n], x) + [sorted[n]]
  }

  /** The stable sort by descending similarity: a permutation of its input. */
  function SortBySimilarity(s: seq<Scored>): (r: seq<Scored>)
    ensures multiset(r) == multiset(s) && |r| == |s|
  {
    if s == [] then []
    else
      assert s == s[..|s| - 1] + [s[|s| - 1]];
      Insert(SortBySimilarity(s[..|s| - 1]), s[|s| - 1])
  }

  /** `results.slice(0, topK).map(r => r.bookmark)` */
  function TopBookmarks(s: seq<Scored>, topK: nat): (r: seq<Bookmark>)
    ensures |r| == Min(topK, |s|)
    ensures forall j :: 0 <= j < |r| ==> r[j] == s[j].bookmark
  {
    seq(Min(topK, |s|), j requires 0 <= j < Min(topK, |s|) => s[j].bookmark)
  }

  /** Every similarity is a number (no zero-norm embedding took part). */
  predicate Numeric(s: seq<Scored>)
  {
    forall i :: 0 <= i < |s| ==> Score(s[i]).Num?
  }

  /** Entries are listed in the order of the input they came from. */
  predicate InInputOrder(s: seq<Scored>)
  {
    forall p, q :: 0 <= p < q < |s| ==> s[p].pos < s[q].pos
  }

  predicate DistinctPositions(s: seq<Scored>)
  {
    forall p, q :: 0 <= p < q < |s| ==> s[p].pos != s[q].pos
  }

  /** x comes first in the ranking: higher similarity, or equal similarity
      and earlier in the input. */
  predicate RankedBefore(x: Scored, y: Scored)
  {
    || Greater(x, y)
    || (Score(x).Num? && Score(y).Num? && Score(x).value == Score(y).value && x.pos < y.pos)
  }

  /** Non-increasing similarity, ties in input order. */
  predicate Ranked(s: seq<Scored>)
  {
    forall p, q :: 0 <= p < q < |s| ==> RankedBefore(s[p], s[q])
  }

  /** Appending an element that beats nobody keeps a ranking ranked. */
  lemma AppendRanked(t: seq<Scored>, x: Scored)
    requires Ranked(t) && Numeric(t) && Score(x).Num?
    requires forall i :: 0 <= i < |t| ==> t[i].pos < x.pos
    requires t != [] ==> !Greater(x, t[|t| - 1])
    ensures Ranked(t + [x])
  {
    var r := t + [x];
    forall p, q | 0 <= p < q < |r|
      ensures RankedBefore(r[p], r[q])
    {
      if q == |t| {
        var n := |t| - 1;
        if p < n {
          assert RankedBefore(t[p], t[n]);
        }
        assert Score(t[p]).value >= Score(t[n]).value >= Score(x).value;
      } else {
        assert r[p] == t[p] && r[q] == t[q];
      }
    }
  }

  /** Appending an element that every other element ranks before. */
  lemma AppendLast(u: seq<Scored>, y: Scored)
    requires Ranked(u)
    requires forall i :: 0 <= i < |u| ==> RankedBefore(u[i], y)
    ensures Ranked(u + [y])
  {
    var r := u + [y];
    forall p, q | 0 <= p < q < |r|
      ensures RankedBefore(r[p], r[q])
    {
      if q < |u| {
        assert r[p] == u[p] && r[q] == u[q];
      }
    }
  }

  /** Everything inserted before the last element of a ranking ranks before it. */
  lemma InsertedBefore(t: seq<Scored>, x: Scored)
    requires Ranked(t) && t != [] && Greater(x, t[|t| - 1])
    ensures var n := |t| - 1;
            forall i :: 0 <= i < |Insert(t[..n], x)| ==> RankedBefore(Insert(t[..n], x)[i], t[n])
  {
    var n := |t| - 1;
    var u := Insert(t[..n], x);
    forall i | 0 <= i < |u|
      ensures RankedBefore(u[i], t[n])
    {
      assert u[i] in multiset(u);
      if u[i] != x {
        assert u[i] in multiset(t[..n]);
        var k :| 0 <= k < n && t[..n][k] == u[i];
        assert RankedBefore(t[k], t[n]);
      }
    }
  }

  lemma {:induction false} InsertRanked(t: seq<Scored>, x: Scored)
    requires Ranked(t) && Numeric(t) && Score(x).Num?
    requires forall i :: 0 <= i < |t| ==> t[i].pos < x.pos
    ensures Ranked(Insert(t, x))
  {
    if t == [] || !Greater(x, t[|t| - 1]) {
      AppendRanked(t, x);
    } else {
      var n := |t| - 1;
      assert Ranked(t[..n]) && Numeric(t[..n]) by {
        forall p, q | 0 <= p < q < n ensures RankedBefore(t[..n][p], t[..n][q]) {
          assert RankedBefore(t[p], t[q]);
        }
      }
      InsertRanked(t[..n], x);
      InsertedBefore(t, x);
      AppendLast(Insert(t[..n], x), t[n]);
    }
  }

  /** The sort ranks its input: non-increasing similarity, equal
      similarities in input order. */
  lemma {:induction false} SortRanked(s: seq<Scored>)
    requires Numeric(s) && InInputOrder(s)
    ensures Ranked(SortBySimilarity(s))
  {
    if s != [] {
      var n := |s| - 1;
      var t := SortBySimilarity(s[..n]);
      SortRanked(s[..n]);
      forall i | 0 <= i < |t|
        ensures Score(t[i]).Num? && t[i].pos < s[n].pos
      {
        assert t[i] in multiset(s[..n]);
      }
      InsertRanked(t, s[n]);
    }
  }

  lemma {:induction false} InsertDistinct(t: seq<Scored>, x: Scored)
    requires DistinctPositions(t)
    requires forall i :: 0 <= i < |t| ==> t[i].pos != x.pos
    ensures DistinctPositions(Insert(t, x))
  {
    if t != [] && Greater(x, t[|t| - 1]) {
      var n := |t| - 1;
      var u := Insert(t[..n], x);
      InsertDistinct(t[..n], x);
      forall p | 0 <= p < |u|
        ensures u[p].pos != t[n].pos
      {
        assert u[p] in multiset(u);
        if u[p] != x {
          assert u[p] in multiset(t[..n]);
        }
      }
    }
  }

  /** The sort neither drops nor duplicates an entry: positions stay distinct. */
  lemma {:induction false} SortDistinct(s: seq<Scored>)
    requires InInputOrder(s)
    ensures DistinctPositions(SortBySimilarity(s))
  {
    if s != [] {
      var n := |s| - 1;
      var t := SortBySimilarity(s[..n]);
      SortDistinct(s[..n]);
      forall i | 0 <= i < |t|
        ensures t[i].pos != s[n].pos
      {
        assert t[i] in multiset(s[..n]);
      }
      InsertDistinct(t, s[n]);
    }
  }

  /** A ranking is unique: any two ranked permutations of the same entries
      are equal, so every stable sort with this comparator agrees with
      SortBySimilarity. */
  lemma {:induction false} RankingUnique(r1: seq<Scored>, r2: seq<Scored>)
    requires Ranked(r1) && Ranked(r2) && multiset(r1) == multiset(r2)
    ensures r1 == r2
  {
    if r1 != [] {
      SameHead(r1, r2);
      RankedTail(r1);
      RankedTail(r2);
      assert r1 == [r1[0]] + r1[1..] && r2 == [r2[0]] + r2[1..];
      assert multiset(r1[1..]) == multiset(r2[1..]) by {
        assert multiset(r1) == multiset{r1[0]} + multiset(r1[1..]);
        assert multiset(r2) == multiset{r2[0]} + multiset(r2[1..]);
        assert multiset(r1[1..]) == multiset(r1) - multiset{r1[0]};
        assert multiset(r2[1..]) == multiset(r2) - multiset{r2[0]};
      }
      RankingUnique(r1[1..], r2[1..]);
    } else {
      assert |multiset(r2)| == 0;
    }
  }

  /** Two rankings of the same entries start with the same entry: each
      head is ranked before the other unless they are the same entry. */
  lemma SameHead(r1: seq<Scored>, r2: seq<Scored>)
    requires Ranked(r1) && Ranked(r2) && multiset(r1) == multiset(r2) && r1 != []
    ensures r2 != [] && r1[0] == r2[0]
  {
    assert r1[0] in multiset(r2);
    assert r2[0] in multiset(r1);
  }

  lemma RankedTail(r: seq<Scored>)
    requires Ranked(r) && r != []
    ensures Ranked(r[1..])
  {
    forall p, q | 0 <= p < q < |r| - 1
      ensures RankedBefore(r[1..][p], r[1..][q])
    {
      assert RankedBefore(r[p + 1], r[q + 1]);
    }
  }
}
