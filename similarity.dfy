/** Cosine similarity of two embeddings, `dot / (sqrt(normA) * sqrt(normB))`.

    Dafny has no square root on reals, so a similarity is kept as the three
    sums the source's loop accumulates, and compared through the exact real
    `dot * |dot| / (normA * normB)`, which is `cos * |cos|`: a strictly
    increasing image of the cosine, so it orders and ties bookmarks exactly
    as the cosine does (lemmas KeyIsSignedSquare and SignedSquareMonotone). */
module Similarity {
  import opened Wrappers
  import opened Records

  /** Σ a[i]·b[i] over the common length. */
  function Dot(a: seq<real>, b: seq<real>): real
    requires |a| == |b|
  {
    if |a| == 0 then 0.0 else Dot(a[..|a| - 1], b[..|a| - 1]) + a[|a| - 1] * b[|a| - 1]
  }

  /** Σ a[i]², the squared Euclidean norm. */
  function SumSq(a: seq<real>): real
  {
    Dot(a, a)
  }

  /** The cosine `dot / (sqrt(normA) * sqrt(normB))`, kept unevaluated. */
  datatype Cosine = Cosine(dot: real, normA: real, normB: real)

  /** A JavaScript number result of the division: NaN when a norm is zero
      (then the dot product is zero too, and 0/0 is NaN). */
  datatype Number = Num(value: real) | NaN

  /** The similarity of two equal-length embeddings. */
  function Similar(a: seq<real>, b: seq<real>): Cosine
    requires |a| == |b|
  {
    Cosine(Dot(a, b), SumSq(a), SumSq(b))
  }

  function Abs(x: real): real
  {
    if x < 0.0 then -x else x
  }

  /** x·|x|, a strictly increasing map of the reals onto themselves. */
  function SignedSquare(x: real): real
  {
    x * Abs(x)
  }

  /** The comparison key of a cosine: cos·|cos|, or NaN. */
  function Key(c: Cosine): Number
  {
    if c.normA * c.normB == 0.0 then NaN else Num(SignedSquare(c.dot) / (c.normA * c.normB))
  }

  /** `cosineSimilarity(a, b)`: throws on a length mismatch, otherwise one
      loop accumulates the dot product and both squared norms. */
  method CosineSimilarity(a: seq<real>, b: seq<real>) returns (r: Result<Cosine, Error>)
    ensures r.Failure? <==> |a| != |b|
    ensures r.Failure? ==> r.error == DimensionMismatch
    ensures r.Success? ==> |a| == |b| && r.value == Similar(a, b)
  {
    if |a| != |b| {
      return Failure(DimensionMismatch);
    }
    var dotProduct, normA, normB := 0.0, 0.0, 0.0;
    for i := 0 to |a|
      invariant dotProduct == Dot(a[..i], b[..i])
      invariant normA == SumSq(a[..i]) && normB == SumSq(b[..i])
    {
      assert a[..i + 1][..i] == a[..i] && b[..i + 1][..i] == b[..i];
      dotProduct := dotProduct + a[i] * b[i];
      normA := normA + a[i] * a[i];
      normB := normB + b[i] * b[i];
    }
    assert a[..|a|] == a && b[..|b|] == b;
    return Success(Cosine(dotProduct, normA, normB));
  }

  /** Both accumulated norms are non-negative. */
  lemma {:induction false} SumSqNonNegative(a: seq<real>)
    ensures SumSq(a) >= 0.0
  {
    if |a| > 0 {
      SumSqNonNegative(a[..|a| - 1]);
    }
  }

  /** The dot product does not depend on the order of its arguments. */
  lemma {:induction false} DotSymmetric(a: seq<real>, b: seq<real>)
    requires |a| == |b|
    ensures Dot(a, b) == Dot(b, a)
  {
    if |a| > 0 {
      DotSymmetric(a[..|a| - 1], b[..|a| - 1]);
    }
  }

  /** Swapping the embeddings swaps the norms and keeps the similarity. */
  lemma SimilaritySymmetric(a: seq<real>, b: seq<real>)
    requires |a| == |b|
    ensures Similar(b, a) == Cosine(Similar(a, b).dot, Similar(a, b).normB, Similar(a, b).normA)
    ensures Key(Similar(a, b)) == Key(Similar(b, a))
  {
    DotSymmetric(a, b);
  }

  /** A vector of zero norm is all zeros, so its dot product with anything is zero. */
  lemma {:induction false} ZeroNormZeroDot(a: seq<real>, b: seq<real>)
    requires |a| == |b| && SumSq(a) == 0.0
    ensures Dot(a, b) == 0.0
  {
    if |a| > 0 {
      var n := |a| - 1;
      SumSqNonNegative(a[..n]);
      if a[n] != 0.0 {
        SumSqPositive(a, n);
      }
      ZeroNormZeroDot(a[..n], b[..n]);
    }
  }

  /** A vector with a non-zero component has a positive norm. */
  lemma {:induction false} SumSqPositive(a: seq<real>, k: nat)
    requires k < |a| && a[k] != 0.0
    ensures SumSq(a) > 0.0
  {
    var n := |a| - 1;
    if k == n {
      SumSqNonNegative(a[..n]);
      AddSquarePositive(SumSq(a[..n]), a[n]);
    } else {
      SumSqPositive(a[..n], k);
      SquareNonNegative(a[n]);
    }
  }

  /** The similarity is NaN exactly when one of the embeddings has zero norm. */
  lemma SimilarityNaN(a: seq<real>, b: seq<real>)
    requires |a| == |b|
    ensures Key(Similar(a, b)).NaN? <==> SumSq(a) == 0.0 || SumSq(b) == 0.0
    ensures Key(Similar(a, b)).NaN? ==> Similar(a, b).dot == 0.0
  {
    if SumSq(a) == 0.0 {
      ZeroNormZeroDot(a, b);
    } else if SumSq(b) == 0.0 {
      ZeroNormZeroDot(b, a);
      DotSymmetric(a, b);
    } else {
      SumSqNonNegative(a);
      SumSqNonNegative(b);
      MulLess(0.0, 0.0, SumSq(a), SumSq(b));
    }
  }

  /** With s = sqrt(normA) * sqrt(normB), the key is cos * |cos| for cos = dot / s. */
  lemma KeyIsSignedSquare(c: Cosine, s: real)
    requires s > 0.0 && s * s == c.normA * c.normB
    ensures Key(c) == Num(SignedSquare(c.dot / s))
  {
    var x := c.dot / s;
    MulLess(0.0, 0.0, s, s);
    assert c.dot == x * s;
    ScaleSignedSquare(x, s);
    DivCancel(SignedSquare(x), s * s);
  }

  /** A non-zero embedding is perfectly similar to itself (cosine 1). */
  lemma SelfSimilarity(v: seq<real>, k: nat)
    requires k < |v| && v[k] != 0.0
    ensures Key(Similar(v, v)) == Num(1.0)
  {
    SumSqPositive(v, k);
    var n := SumSq(v);
    assert Similar(v, v) == Cosine(n, n, n);
    MulLess(0.0, 0.0, n, n);
    assert n * n != 0.0;
    assert Key(Cosine(n, n, n)) == Num(SignedSquare(n) / (n * n));
    assert Abs(n) == n;
    Ratio(SignedSquare(n), n * n, 1.0);
  }

  /** `-v`, every component negated. */
  function Negated(v: seq<real>): (w: seq<real>)
    ensures |w| == |v| && forall i :: 0 <= i < |v| ==> w[i] == -v[i]
  {
    seq(|v|, i requires 0 <= i < |v| => -v[i])
  }

  lemma {:induction false} DotNegated(v: seq<real>)
    ensures Dot(v, Negated(v)) == -SumSq(v)
    ensures SumSq(Negated(v)) == SumSq(v)
  {
    if |v| > 0 {
      var n := |v| - 1;
      assert Negated(v)[..n] == Negated(v[..n]);
      DotNegated(v[..n]);
      assert v[n] * -v[n] == -(v[n] * v[n]);
      assert -v[n] * -v[n] == v[n] * v[n];
    }
  }

  /** A non-zero embedding and its negation are opposite (cosine -1). */
  lemma OppositeSimilarity(v: seq<real>, k: nat)
    requires k < |v| && v[k] != 0.0
    ensures Key(Similar(v, Negated(v))) == Num(-1.0)
  {
    DotNegated(v);
    SumSqPositive(v, k);
    var n := SumSq(v);
    assert Similar(v, Negated(v)) == Cosine(-n, n, n);
    MulLess(0.0, 0.0, n, n);
    assert n * n != 0.0;
    assert Key(Cosine(-n, n, n)) == Num(SignedSquare(-n) / (n * n));
    assert Abs(-n) == n;
    assert SignedSquare(-n) == -(n * n);
    Ratio(SignedSquare(-n), n * n, -1.0);
  }

  /** Orthogonal unit vectors have cosine 0. */
  lemma OrthogonalSimilarity()
    ensures Key(Similar([1.0, 0.0], [0.0, 1.0])) == Num(0.0)
  {
    var a, b := [1.0, 0.0], [0.0, 1.0];
    assert a[..1] == [1.0] && b[..1] == [0.0] && [1.0][..0] == [] && [0.0][..0] == [];
    assert Dot(a, b) == 0.0;
    assert SumSq(a) == 1.0 && SumSq(b) == 1.0;
  }

  /** Unit vectors 60 degrees apart have cosine 0.5 (`h` is sqrt(3)/2). */
  lemma SixtyDegreeSimilarity(h: real)
    requires h * h == 0.75
    ensures Key(Similar([1.0, 0.0], [0.5, h])) == Num(SignedSquare(0.5))
  {
    var a, b := [1.0, 0.0], [0.5, h];
    assert a[..1] == [1.0] && b[..1] == [0.5] && [1.0][..0] == [] && [0.5][..0] == [];
    assert Dot(a, b) == 0.5;
    assert SumSq(a) == 1.0;
    assert Dot(b[..1], b[..1]) == 0.25;
    assert SumSq(b) == 0.25 + b[1] * b[1];
    KeyIsSignedSquare(Similar(a, b), 1.0);
  }

  /** x ↦ x·|x| is strictly increasing, so comparing keys compares cosines. */
  lemma SignedSquareMonotone(x: real, y: real)
    ensures x < y <==> SignedSquare(x) < SignedSquare(y)
    ensures x == y <==> SignedSquare(x) == SignedSquare(y)
  {
    if x < y {
      SignedSquareStrict(x, y);
    } else if y < x {
      SignedSquareStrict(y, x);
    }
  }

  lemma SignedSquareStrict(x: real, y: real)
    requires x < y
    ensures SignedSquare(x) < SignedSquare(y)
  {
    if 0.0 <= x {
      MulLess(x, x, y, y);
    } else if y <= 0.0 {
      MulLess(-y, -y, -x, -x);
      assert SignedSquare(y) == -((-y) * (-y));
      assert SignedSquare(x) == -((-x) * (-x));
    } else {
      MulLess(0.0, 0.0, -x, -x);
      MulLess(0.0, 0.0, y, y);
      assert SignedSquare(x) == -((-x) * (-x));
    }
  }

  lemma SquareNonNegative(x: real)
    ensures x * x >= 0.0
  {
    if x != 0.0 {
      SquarePositive(x);
    }
  }

  lemma SquarePositive(x: real)
    requires x != 0.0
    ensures x * x > 0.0
  {
    if x < 0.0 {
      MulLess(0.0, 0.0, -x, -x);
      assert x * x == (-x) * (-x);
    } else {
      MulLess(0.0, 0.0, x, x);
    }
  }

  /** a·b < c·d for 0 <= a < c and 0 <= b <= d, 0 < d. */
  lemma MulLess(a: real, b: real, c: real, d: real)
    requires 0.0 <= a < c && 0.0 <= b <= d && 0.0 < d
    ensures a * b < c * d
  {
    assert a * b <= a * d;
    assert a * d < c * d;
  }

  /** p + x² > 0 for p >= 0 and x != 0 (split by sign: the solver handles
      squares far better with a known sign). */
  lemma AddSquarePositive(p: real, x: real)
    requires p >= 0.0 && x != 0.0
    ensures p + x * x > 0.0
  {
    if x > 0.0 {
      MulLess(0.0, 0.0, x, x);
    } else {
      MulLess(0.0, 0.0, -x, -x);
      assert x * x == (-x) * (-x);
    }
  }

  lemma ScaleSignedSquare(x: real, s: real)
    requires s > 0.0
    ensures SignedSquare(x * s) == SignedSquare(x) * (s * s)
  {
    assert Abs(x * s) == Abs(x) * s;
  }

  lemma Ratio(p: real, q: real, r: real)
    requires q != 0.0 && p == r * q
    ensures p / q == r
  {
  }

  lemma DivCancel(p: real, q: real)
    requires q != 0.0
    ensures (p * q) / q == p
  {
  }
}
