/**
  Element-wise arithmetic on flattened samples, standing for the numpy
  operations the attack applies (sign, absolute value, sums over every
  non-batch axis, scaling and clipping). Values are exact reals: float
  rounding is not modelled.

  The numeric functions carry no postconditions of their own; their facts
  are lemmas, called where needed, which keeps the products of reals that
  appear in the proofs away from unrelated facts.
 */
module Tensors {

  /** One sample, flattened over all of its non-batch axes. */
  type Sample = seq<real>

  /** A batch of samples; row i is sample i. */
  type Batch = seq<Sample>

  function Abs(v: real): real
  {
    if v < 0.0 then -v else v
  }

  /** np.sign */
  function Sign(v: real): real
  {
    if v > 0.0 then 1.0 else if v < 0.0 then -1.0 else 0.0
  }

  /** np.clip(v, lo, hi), which numpy evaluates as minimum(maximum(v, lo), hi). */
  function Clip(v: real, lo: real, hi: real): real
  {
    var m := if v < lo then lo else v;
    if m > hi then hi else m
  }

  function Square(v: real): real
  {
    v * v
  }

  function Sum(s: seq<real>): real
  {
    if s == [] then 0.0 else s[0] + Sum(s[1..])
  }

  /** np.abs(s) */
  function Magnitudes(s: Sample): Sample
  {
    seq(|s|, j requires 0 <= j < |s| => Abs(s[j]))
  }

  /** np.square(s) */
  function Squares(s: Sample): Sample
  {
    seq(|s|, j requires 0 <= j < |s| => Square(s[j]))
  }

  /** The L1 norm of a flattened sample: np.sum(np.abs(s)). */
  function AbsSum(s: Sample): real
  {
    Sum(Magnitudes(s))
  }

  /** The squared L2 norm of a flattened sample: np.sum(np.square(s)). */
  function SumSquares(s: Sample): real
  {
    Sum(Squares(s))
  }

  /** k * s, element by element. */
  function Scale(k: real, s: Sample): Sample
  {
    seq(|s|, j requires 0 <= j < |s| => k * s[j])
  }

  /** -s, element by element. */
  function Negated(s: Sample): Sample
  {
    seq(|s|, j requires 0 <= j < |s| => -s[j])
  }

  /** a - b, element by element. */
  function Diff(a: Sample, b: Sample): Sample
    requires |a| == |b|
  {
    seq(|a|, j requires 0 <= j < |a| => a[j] - b[j])
  }

  /** The sign of v is one of -1, 0, 1, is 0 only for 0, and times v gives the magnitude of v. */
  lemma SignFacts(v: real)
    ensures Sign(v) == -1.0 || Sign(v) == 0.0 || Sign(v) == 1.0
    ensures Sign(v) == 0.0 <==> v == 0.0
    ensures Sign(v) * v == Abs(v)
    ensures Sign(-v) == -Sign(v)
  {
  }

  /** np.clip lands in [lo, hi] when the range is not empty, and leaves in-range values alone. */
  lemma ClipFacts(v: real, lo: real, hi: real)
    ensures lo <= hi ==> lo <= Clip(v, lo, hi) <= hi
    ensures lo <= v <= hi ==> Clip(v, lo, hi) == v
    ensures hi < lo ==> Clip(v, lo, hi) == hi
  {
  }

  /** Clipping a point moved away from an in-range x never moves it further from x. */
  lemma ClipMovesNoFurther(x: real, d: real, lo: real, hi: real)
    requires lo <= x <= hi
    ensures Abs(Clip(x + d, lo, hi) - x) <= Abs(d)
  {
  }

  /** c * a + c * b == c * t for t == a + b, stated over plain values so that the solver meets no function symbols. */
  lemma FactorOut(c: real, a: real, b: real, t: real, p: real, q: real)
    requires p == c * a && q == c * b && t == a + b
    ensures p + q == c * t
  {
  }

  lemma AbsOfProduct(k: real, v: real)
    ensures Abs(k * v) == Abs(k) * Abs(v)
  {
    if k < 0.0 {
      if v < 0.0 {
        assert k * v == (-k) * (-v) && (-k) * (-v) > 0.0;
      } else {
        assert k * v <= 0.0 && -(k * v) == (-k) * v;
      }
    } else {
      if v < 0.0 {
        assert k * v <= 0.0 && -(k * v) == k * (-v);
      } else {
        assert k * v >= 0.0;
      }
    }
  }

  lemma SquareOfProduct(k: real, v: real)
    ensures Square(k * v) == Square(k) * Square(v)
  {
    ProductSquared(k, v, k * v, k * k, v * v);
  }

  lemma ProductSquared(k: real, v: real, kv: real, kk: real, vv: real)
    requires kv == k * v && kk == k * k && vv == v * v
    ensures kv * kv == kk * vv
  {
  }

  lemma Associate(a: real, b: real, v: real, p: real, q: real)
    requires p == b * v && q == a * b
    ensures a * p == q * v
  {
  }

  /** Scaling twice is scaling by the product. */
  lemma ScaleOfScale(a: real, b: real, s: Sample)
    ensures Scale(a, Scale(b, s)) == Scale(a * b, s)
  {
    forall j | 0 <= j < |s|
      ensures Scale(a, Scale(b, s))[j] == Scale(a * b, s)[j]
    {
      Associate(a, b, s[j], b * s[j], a * b);
    }
  }

  lemma ScaleByOne(s: Sample)
    ensures Scale(1.0, s) == s
  {
    assert forall j :: 0 <= j < |s| ==> Scale(1.0, s)[j] == s[j];
  }

  /** Dividing by a non-zero t and then multiplying by t gives the sample back. */
  lemma ScaleByReciprocal(t: real, s: Sample)
    requires t != 0.0
    ensures Scale(t, Scale(1.0 / t, s)) == s
  {
    var k := 1.0 / t;
    ScaleOfScale(t, k, s);
    assert t * k == 1.0;
    ScaleByOne(s);
  }

  lemma {:induction false} SumNonNegative(s: Sample)
    requires forall j :: 0 <= j < |s| ==> s[j] >= 0.0
    ensures Sum(s) >= 0.0
  {
    if s != [] {
      assert forall j :: 0 <= j < |s| - 1 ==> s[1..][j] == s[j + 1];
      SumNonNegative(s[1..]);
    }
  }

  /** A sum of non-negative terms is zero exactly when every term is. */
  lemma {:induction false} SumZero(s: Sample)
    requires forall j :: 0 <= j < |s| ==> s[j] >= 0.0
    ensures Sum(s) == 0.0 <==> forall j :: 0 <= j < |s| ==> s[j] == 0.0
  {
    if s != [] {
      assert forall j :: 0 <= j < |s| - 1 ==> s[1..][j] == s[j + 1];
      SumZero(s[1..]);
      SumNonNegative(s[1..]);
    }
  }

  /** Termwise no larger means no larger in sum. */
  lemma {:induction false} SumMonotone(a: Sample, b: Sample)
    requires |a| == |b|
    requires forall j :: 0 <= j < |a| ==> a[j] <= b[j]
    ensures Sum(a) <= Sum(b)
  {
    if a != [] {
      assert forall j :: 0 <= j < |a| - 1 ==> a[1..][j] == a[j + 1] && b[1..][j] == b[j + 1];
      SumMonotone(a[1..], b[1..]);
    }
  }

  lemma AbsSumNonNegative(s: Sample)
    ensures AbsSum(s) >= 0.0
  {
    SumNonNegative(Magnitudes(s));
  }

  /** Sums of samples that are proportional element by element are proportional. */
  lemma {:induction false} SumProportional(a: Sample, b: Sample, k: real)
    requires |a| == |b|
    requires forall j :: 0 <= j < |a| ==> a[j] == k * b[j]
    ensures Sum(a) == k * Sum(b)
  {
    if a != [] {
      assert forall j :: 0 <= j < |a| - 1 ==> a[1..][j] == a[j + 1] && b[1..][j] == b[j + 1];
      SumProportional(a[1..], b[1..], k);
      FactorOut(k, b[0], Sum(b[1..]), Sum(b), a[0], Sum(a[1..]));
    }
  }

  lemma SumOfScaled(k: real, s: Sample)
    ensures Sum(Scale(k, s)) == k * Sum(s)
  {
    SumProportional(Scale(k, s), s, k);
  }

  lemma MagnitudesOfScaled(k: real, s: Sample)
    ensures Magnitudes(Scale(k, s)) == Scale(Abs(k), Magnitudes(s))
  {
    forall j | 0 <= j < |s|
      ensures Magnitudes(Scale(k, s))[j] == Scale(Abs(k), Magnitudes(s))[j]
    {
      AbsOfProduct(k, s[j]);
    }
  }

  lemma AbsSumOfScaled(k: real, s: Sample)
    ensures AbsSum(Scale(k, s)) == Abs(k) * AbsSum(s)
  {
    MagnitudesOfScaled(k, s);
    SumOfScaled(Abs(k), Magnitudes(s));
  }

  lemma SquaresOfScaled(k: real, s: Sample)
    ensures Squares(Scale(k, s)) == Scale(Square(k), Squares(s))
  {
    forall j | 0 <= j < |s|
      ensures Squares(Scale(k, s))[j] == Scale(Square(k), Squares(s))[j]
    {
      SquareOfProduct(k, s[j]);
    }
  }

  lemma SumSquaresOfScaled(k: real, s: Sample)
    ensures SumSquares(Scale(k, s)) == Square(k) * SumSquares(s)
  {
    SquaresOfScaled(k, s);
    SumOfScaled(Square(k), Squares(s));
  }

  lemma AbsSumOfNegated(s: Sample)
    ensures AbsSum(Negated(s)) == AbsSum(s)
  {
    assert Magnitudes(Negated(s)) == Magnitudes(s);
  }

  lemma SumSquaresOfNegated(s: Sample)
    ensures SumSquares(Negated(s)) == SumSquares(s)
  {
    forall j | 0 <= j < |s|
      ensures Squares(Negated(s))[j] == Squares(s)[j]
    {
      ProductSquared(-1.0, s[j], -s[j], 1.0, s[j] * s[j]);
    }
    assert Squares(Negated(s)) == Squares(s);
  }

  /** The L1 norm vanishes exactly on all-zero samples. */
  lemma AbsSumZero(s: Sample)
    ensures AbsSum(s) == 0.0 <==> forall j :: 0 <= j < |s| ==> s[j] == 0.0
  {
    SumZero(Magnitudes(s));
    assert forall j :: 0 <= j < |s| ==> (Magnitudes(s)[j] == 0.0 <==> s[j] == 0.0);
  }

  /** A sample that is elementwise no larger in magnitude has no larger L1 norm. */
  lemma AbsSumMonotone(a: Sample, b: Sample)
    requires |a| == |b|
    requires forall j :: 0 <= j < |a| ==> Abs(a[j]) <= Abs(b[j])
    ensures AbsSum(a) <= AbsSum(b)
  {
    SumMonotone(Magnitudes(a), Magnitudes(b));
  }

  lemma SquareMonotone(a: real, b: real)
    requires Abs(a) <= Abs(b)
    ensures Square(a) <= Square(b)
  {
    var p, q := Abs(a), Abs(b);
    assert p * p == a * a && q * q == b * b;
    assert p * p <= p * q <= q * q;
  }

  /** A sample that is elementwise no larger in magnitude has no larger squared L2 norm. */
  lemma SumSquaresMonotone(a: Sample, b: Sample)
    requires |a| == |b|
    requires forall j :: 0 <= j < |a| ==> Abs(a[j]) <= Abs(b[j])
    ensures SumSquares(a) <= SumSquares(b)
  {
    forall j | 0 <= j < |a|
      ensures Squares(a)[j] <= Squares(b)[j]
    {
      SquareMonotone(a[j], b[j]);
    }
    SumMonotone(Squares(a), Squares(b));
  }
}
