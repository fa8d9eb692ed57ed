/** The bookmark records the engine reads and updates, and the errors its
    operations can throw. */
module Records {
  import opened Wrappers

  /** The exceptions of the engine: the model is missing after lazy
      initialisation, the backend model threw while embedding, two
      embeddings of different length were compared, the storage write
      was rejected. */
  datatype Error = ModelUnavailable | EmbeddingFailed | DimensionMismatch | StorageFailed

  /** The enrichment record attached to a bookmark (only the two fields the
      engine reads or writes; the record is stored whole). A cached
      embedding counts as present whenever it is not null, even if empty,
      because a JavaScript array is always truthy. */
  datatype Enhanced = Enhanced(description: Option<string>, embedding: Option<seq<real>>)

  /** A bookmark with its optional enrichment record. Missing title and url
      are read as the empty string. */
  datatype Bookmark = Bookmark(id: string, title: Option<string>, url: Option<string>, enhanced: Option<Enhanced>)

  /** `x || ''` for a string field that may be null or undefined. */
  function OrEmpty(s: Option<string>): string
  {
    if s.Some? then s.value else ""
  }

  /** `bookmark.enhanced?.description || ''` */
  function Description(b: Bookmark): string
  {
    if b.enhanced.Some? then OrEmpty(b.enhanced.value.description) else ""
  }

  /** `[title, description, url].join(' ')`: the text a bookmark is embedded from. */
  function SearchText(b: Bookmark): string
  {
    OrEmpty(b.title) + " " + Description(b) + " " + OrEmpty(b.url)
  }

  /** The storage key a bookmark's enrichment record is written under. */
  function CacheKey(id: string): string
  {
    "bookmark_" + id
  }

  /** `bookmark.enhanced?.embedding` when it is present. */
  function CachedEmbedding(b: Bookmark): Option<seq<real>>
  {
    if b.enhanced.Some? then b.enhanced.value.embedding else None
  }

  /** `bookmark.enhanced.embedding = v`, for a bookmark that has an enrichment record. */
  function WithEmbedding(b: Bookmark, v: seq<real>): (r: Bookmark)
    requires b.enhanced.Some?
    ensures r.id == b.id && r.title == b.title && r.url == b.url
    ensures Description(r) == Description(b) && CachedEmbedding(r) == Some(v)
  {
    b.(enhanced := Some(b.enhanced.value.(embedding := Some(v))))
  }

  /** Two bookmarks that differ at most in their cached embedding. */
  predicate SameText(b: Bookmark, c: Bookmark)
  {
    b.id == c.id && b.title == c.title && b.url == c.url && Description(b) == Description(c)
  }

  /** Two bookmark lists that agree pointwise on everything but cached embeddings. */
  predicate SameTexts(bs: seq<Bookmark>, cs: seq<Bookmark>)
  {
    |bs| == |cs| && forall i :: 0 <= i < |bs| ==> SameText(bs[i], cs[i])
  }

  /** The search text starts with the title and ends with the url, each
      followed or preceded by a single space around the description. */
  lemma SearchTextJoins(b: Bookmark)
    ensures var t := SearchText(b);
            && |t| == |OrEmpty(b.title)| + |Description(b)| + |OrEmpty(b.url)| + 2
            && t[|OrEmpty(b.title)|] == ' ' && t[|t| - |OrEmpty(b.url)| - 1] == ' '
            && t[..|OrEmpty(b.title)|] == OrEmpty(b.title) && t[|t| - |OrEmpty(b.url)|..] == OrEmpty(b.url)
            && t[|OrEmpty(b.title)| + 1..|t| - |OrEmpty(b.url)| - 1] == Description(b)
  {
  }

  /** The search text reads only title, description and url: a cached
      embedding does not change it. */
  lemma SameTextSearchText(b: Bookmark, c: Bookmark)
    requires SameText(b, c)
    ensures SearchText(b) == SearchText(c)
  {
  }

  /** Distinct bookmark ids give distinct storage keys. */
  lemma CacheKeyInjective(id: string, id': string)
    requires CacheKey(id) == CacheKey(id')
    ensures id == id'
  {
    assert id == CacheKey(id)[9..];
  }
}
