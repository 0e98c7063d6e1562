/** Cosine similarity (`calculateCosineSimilarity`) over real numbers. The
    square root is a parameter standing for `Math.sqrt`; the lemmas say which
    of its properties they rely on. */
module Similarity {

  /** A JavaScript number as far as this computation can produce one: a real
      value, or NaN. NaN arises when the second vector is shorter than the
      first, because reading past its end gives `undefined`. */
  datatype Num = Real(value: real) | NaN

  /** The dot product of `a` with the first `|a|` components of `b`. */
  function Dot(a: seq<real>, b: seq<real>): real
    requires |a| <= |b|
  {
    if a == [] then 0.0 else Dot(a[..|a| - 1], b) + a[|a| - 1] * b[|a| - 1]
  }

  /** The sum of the squares of the components of `a`. */
  function SumOfSquares(a: seq<real>): real {
    if a == [] then 0.0 else SumOfSquares(a[..|a| - 1]) + a[|a| - 1] * a[|a| - 1]
  }

  /** The final division `dotProduct / (vec1Mag * vec2Mag)`. */
  function Ratio(dot: real, m1: real, m2: real): real
    requires m1 != 0.0 && m2 != 0.0
  {
    dot / (m1 * m2)
  }

  /** The value `calculateCosineSimilarity(v1, v2)` returns when `Math.sqrt`
      is `sqrt`: zero when either magnitude is zero, otherwise the dot product
      over the product of the magnitudes. Only the first `|v1|` components of
      `v2` are read; a `v2` shorter than that makes the dot product and the
      second magnitude NaN, so the result is NaN unless the first magnitude
      is zero. */
  function Cosine(v1: seq<real>, v2: seq<real>, sqrt: real -> real): (r: Num)
    ensures |v1| <= |v2| ==> r.Real?
    ensures r.NaN? ==> |v2| < |v1| && sqrt(SumOfSquares(v1)) != 0.0
  {
    var m1 := sqrt(SumOfSquares(v1));
    if |v2| < |v1| then
      if m1 == 0.0 then Real(0.0) else NaN
    else
      var m2 := sqrt(SumOfSquares(v2[..|v1|]));
      if m1 == 0.0 || m2 == 0.0 then Real(0.0) else Real(Ratio(Dot(v1, v2), m1, m2))
  }

  /** The loop of `calculateCosineSimilarity`: it accumulates the dot product
      and both sums of squares over the indices of `v1`, then applies the zero
      guard and divides. */
  method CosineSimilarity(v1: seq<real>, v2: seq<real>, sqrt: real -> real) returns (sim: Num)
    ensures sim == Cosine(v1, v2, sqrt)
    ensures sqrt(0.0) == 0.0 && SumOfSquares(v1) == 0.0 ==> sim == Real(0.0)
  {
    var dotProduct, vec1Mag, vec2Mag := 0.0, 0.0, 0.0;
    var readUndefined := false;  // some `vec2[i]` was `undefined`: the dot product and vec2Mag are NaN
    for i := 0 to |v1|
      invariant vec1Mag == SumOfSquares(v1[..i])
      invariant readUndefined <==> i > |v2|
      invariant !readUndefined ==> dotProduct == Dot(v1[..i], v2) && vec2Mag == SumOfSquares(v2[..i])
    {
      assert v1[..i + 1][..i] == v1[..i];
      if i < |v2| {
        assert v2[..i + 1][..i] == v2[..i];
        dotProduct := dotProduct + v1[i] * v2[i];
        vec2Mag := vec2Mag + v2[i] * v2[i];
      } else {
        readUndefined := true;
      }
      vec1Mag := vec1Mag + v1[i] * v1[i];
    }
    assert v1[..|v1|] == v1;
    var m1 := sqrt(vec1Mag);
    if readUndefined {
      sim := if m1 == 0.0 then Real(0.0) else NaN;
    } else {
      var m2 := sqrt(vec2Mag);
      if m1 == 0.0 || m2 == 0.0 {
        sim := Real(0.0);
      } else {
        sim := Real(Ratio(dotProduct, m1, m2));
      }
    }
  }

  lemma {:induction false} SumOfSquaresNonNegative(a: seq<real>)
    ensures SumOfSquares(a) >= 0.0
  {
    if a != [] {
      SumOfSquaresNonNegative(a[..|a| - 1]);
    }
  }

  /** A sum of squares is zero exactly when every component is zero. */
  lemma {:induction false} SumOfSquaresZeroIff(a: seq<real>)
    ensures SumOfSquares(a) == 0.0 <==> forall i :: 0 <= i < |a| ==> a[i] == 0.0
  {
    if a != [] {
      var init, x := a[..|a| - 1], a[|a| - 1];
      SumOfSquaresZeroIff(init);
      SumOfSquaresNonNegative(init);
      assert forall i :: 0 <= i < |init| ==> init[i] == a[i];
      if SumOfSquares(a) == 0.0 {
        var ax := if x >= 0.0 then x else -x;
        assert ax * ax == x * x;
        assert ax * ax <= 0.0 * 0.0;
        RootMonotone(ax, 0.0);
      }
    }
  }

  /** The zero guard: when every component of either vector is zero, the
      similarity is 0, whatever the other vector holds. */
  lemma ZeroVectorHasZeroSimilarity(v1: seq<real>, v2: seq<real>, sqrt: real -> real)
    requires sqrt(0.0) == 0.0
    requires (forall i :: 0 <= i < |v1| ==> v1[i] == 0.0)
          || (|v1| <= |v2| && forall i :: 0 <= i < |v1| ==> v2[i] == 0.0)
    ensures Cosine(v1, v2, sqrt) == Real(0.0)
  {
    SumOfSquaresZeroIff(v1);
    if |v1| <= |v2| {
      SumOfSquaresZeroIff(v2[..|v1|]);
    }
  }

  lemma {:induction false} DotSymmetric(a: seq<real>, b: seq<real>)
    requires |a| == |b|
    ensures Dot(a, b) == Dot(b, a)
  {
    if a != [] {
      DotPrefix(a[..|a| - 1], b);
      DotPrefix(b[..|b| - 1], a);
      DotSymmetric(a[..|a| - 1], b[..|b| - 1]);
    }
  }

  /** `Dot(a, b)` reads `b` only below `|a|`. */
  lemma {:induction false} DotPrefix(a: seq<real>, b: seq<real>)
    requires |a| < |b|
    ensures Dot(a, b) == Dot(a, b[..|a|])
  {
    if a != [] {
      assert b[..|a|][..|a| - 1] == b[..|a| - 1];
      DotPrefix(a[..|a| - 1], b);
      DotPrefix(a[..|a| - 1], b[..|a|]);
    }
  }

  /** Similarity of two vectors of the same dimension does not depend on
      their order. */
  lemma CosineSymmetric(v1: seq<real>, v2: seq<real>, sqrt: real -> real)
    requires |v1| == |v2|
    ensures Cosine(v1, v2, sqrt) == Cosine(v2, v1, sqrt)
  {
    assert v1[..|v2|] == v1 && v2[..|v1|] == v2;
    var m1, m2 := sqrt(SumOfSquares(v1)), sqrt(SumOfSquares(v2));
    DotSymmetric(v1, v2);
    assert m1 * m2 == m2 * m1;
  }

  /** `m` is the non-negative square root of `s`. */
  predicate IsRoot(m: real, s: real) {
    m >= 0.0 && m * m == s
  }

  /** `d * d` is at most `s1 * s2`: the shape of the Cauchy-Schwarz bound. */
  predicate SquareBounded(d: real, s1: real, s2: real) {
    d * d <= s1 * s2
  }

  /** A step of the Cauchy-Schwarz induction: adding one component to each
      vector keeps the squared dot product below the product of the sums of
      squares. */
  lemma CauchySchwarzStep(d: real, a: real, b: real, x: real, y: real)
    requires a >= 0.0 && b >= 0.0 && d * d <= a * b
    ensures (d + x * y) * (d + x * y) <= (a + x * x) * (b + y * y)
  {
    assert 2.0 * d * x * y <= a * y * y + b * x * x by {
      if a == 0.0 {
        assert d * d <= 0.0 * 0.0;
        RootMonotone(if d >= 0.0 then d else -d, 0.0);
        assert d == 0.0;
        assert b * (x * x) >= 0.0;
      } else {
        var e := a * y - d * x;
        assert a * (a * y * y + b * x * x - 2.0 * d * x * y) == e * e + (a * b - d * d) * x * x;
        assert e * e >= 0.0;
        assert (a * b - d * d) * x * x >= 0.0;
      }
    }
    assert (d + x * y) * (d + x * y) == d * d + 2.0 * d * x * y + x * y * x * y;
    assert (a + x * x) * (b + y * y) == a * b + a * y * y + b * x * x + x * x * y * y;
  }

  /** The Cauchy-Schwarz inequality for the dot product. */
  lemma {:induction false} CauchySchwarz(a: seq<real>, b: seq<real>)
    requires |a| <= |b|
    ensures SquareBounded(Dot(a, b), SumOfSquares(a), SumOfSquares(b[..|a|]))
  {
    if a != [] {
      var n := |a| - 1;
      CauchySchwarz(a[..n], b);
      SumOfSquaresNonNegative(a[..n]);
      SumOfSquaresNonNegative(b[..n]);
      assert b[..|a|][..n] == b[..n];
      CauchySchwarzStep(Dot(a[..n], b), SumOfSquares(a[..n]), SumOfSquares(b[..n]), a[n], b[n]);
    }
  }

  /** With a true square root, the similarity of vectors of compatible
      dimension is a real number in [-1, 1]. */
  lemma CosineBounded(v1: seq<real>, v2: seq<real>, sqrt: real -> real)
    requires |v1| <= |v2|
    requires IsRoot(sqrt(SumOfSquares(v1)), SumOfSquares(v1))
    requires IsRoot(sqrt(SumOfSquares(v2[..|v1|])), SumOfSquares(v2[..|v1|]))
    ensures Cosine(v1, v2, sqrt).Real?
    ensures -1.0 <= Cosine(v1, v2, sqrt).value <= 1.0
  {
    var s1, s2 := SumOfSquares(v1), SumOfSquares(v2[..|v1|]);
    var m1, m2 := sqrt(s1), sqrt(s2);
    if m1 != 0.0 && m2 != 0.0 {
      CauchySchwarz(v1, v2);
      QuotientBounded(Dot(v1, v2), m1, m2, s1, s2);
    }
  }

  /** `Ratio(d, m1, m2)` lies in [-1, 1] when `m1` and `m2` are non-zero
      square roots of `s1` and `s2` and `d * d` is at most `s1 * s2`. */
  lemma QuotientBounded(d: real, m1: real, m2: real, s1: real, s2: real)
    requires IsRoot(m1, s1) && m1 != 0.0 && IsRoot(m2, s2) && m2 != 0.0
    requires SquareBounded(d, s1, s2)
    ensures -1.0 <= Ratio(d, m1, m2) <= 1.0
  {
    var p := m1 * m2;
    assert p > 0.0;
    assert s1 * s2 == p * p;
    var ad := if d >= 0.0 then d else -d;
    assert ad * ad == d * d;
    RootMonotone(ad, p);
    assert -p <= d <= p;
    assert d / p <= 1.0 by {
      assert d / p == d * (1.0 / p);
      assert p * (1.0 / p) == 1.0;
    }
    assert d / p >= -1.0 by {
      assert d / p == d * (1.0 / p);
      assert p * (1.0 / p) == 1.0;
    }
  }

  /** Squaring is monotone on the non-negative reals, read backwards. */
  lemma RootMonotone(x: real, y: real)
    requires x >= 0.0 && y >= 0.0 && x * x <= y * y
    ensures x <= y
  {
    if x + y > 0.0 {
      var t := y * y - x * x;
      assert (y - x) * (y + x) == t;
      assert t >= 0.0;
      assert y - x == t / (x + y);
    }
  }
}
