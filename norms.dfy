/**
  The norm projection inside FastGradientMethod._compute
  (src/attacks/fast_gradient.py:133-141): a per-sample gradient becomes a
  direction, by its sign for the infinity norm, or divided by its L1 norm or
  its L2 norm. Each sample has its own denominator.
 */
module Norms {
  import opened Tensors

  /** A norm order as the attack is configured with it: np.inf, or a number such as 1 or 2. */
  datatype NormOrder = Infinity | Order(p: real)

  /** The orders the attack accepts: np.inf, 1 and 2. */
  predicate Supported(n: NormOrder)
  {
    n == Infinity || n == Order(1.0) || n == Order(2.0)
  }

  /** The square root is not part of Dafny's reals: `sqrt` stands for np.sqrt, and IsRoot says it is right at s. */
  predicate IsRoot(sqrt: real -> real, s: real)
  {
    sqrt(s) >= 0.0 && sqrt(s) * sqrt(s) == s
  }

  /** The per-sample value the L1 and L2 branches divide by; the other orders divide by nothing. */
  function Denominator(n: NormOrder, g: Sample, sqrt: real -> real): real
  {
    if n == Order(1.0) then AbsSum(g)
    else if n == Order(2.0) then sqrt(SumSquares(g))
    else 1.0
  }

  /**
    False exactly when numpy's division would produce NaN or an infinity:
    a non-empty row divided by a zero denominator.
   */
  predicate Defined(n: NormOrder, g: Sample, sqrt: real -> real)
  {
    g == [] || Denominator(n, g, sqrt) != 0.0
  }

  /**
    The direction of one sample's gradient. Infinity takes np.sign; 1 and 2
    divide by the denominator; any other order falls through every branch
    of the source and leaves the gradient as it is.
   */
  function Direction(n: NormOrder, g: Sample, sqrt: real -> real): (d: Sample)
    requires Defined(n, g, sqrt)
    ensures |d| == |g|
    ensures !Supported(n) ==> d == g
  {
    if n == Infinity then seq(|g|, j requires 0 <= j < |g| => Sign(g[j]))
    else if (n == Order(1.0) || n == Order(2.0)) && g != [] then Scale(1.0 / Denominator(n, g, sqrt), g)
    else g
  }

  /** The infinity-norm direction has every element in {-1, 0, 1}, zero exactly where the gradient is, and agrees with it in sign. */
  lemma SignDirection(g: Sample, sqrt: real -> real)
    ensures Defined(Infinity, g, sqrt)
    ensures forall j :: 0 <= j < |g| ==>
      var d := Direction(Infinity, g, sqrt)[j];
      (d == -1.0 || d == 0.0 || d == 1.0) && (d == 0.0 <==> g[j] == 0.0) && d * g[j] == Abs(g[j])
  {
    forall j | 0 <= j < |g|
      ensures var d := Direction(Infinity, g, sqrt)[j];
        (d == -1.0 || d == 0.0 || d == 1.0) && (d == 0.0 <==> g[j] == 0.0) && d * g[j] == Abs(g[j])
    {
      SignFacts(g[j]);
    }
  }

  /** The L1 branch divides by zero exactly on a non-empty all-zero gradient. */
  lemma L1DefinedIffNonZero(g: Sample, sqrt: real -> real)
    ensures !Defined(Order(1.0), g, sqrt) <==> g != [] && forall j :: 0 <= j < |g| ==> g[j] == 0.0
  {
    AbsSumZero(g);
  }

  lemma Reciprocal(k: real, s: real)
    requires s != 0.0 && k == 1.0 / s
    ensures k * s == 1.0
  {
  }

  /** With the L1 order, a non-zero gradient becomes a direction of L1 norm 1. */
  lemma L1DirectionIsUnit(g: Sample, sqrt: real -> real)
    requires g != [] && Defined(Order(1.0), g, sqrt)
    ensures AbsSum(Direction(Order(1.0), g, sqrt)) == 1.0
  {
    var s := AbsSum(g);
    AbsSumNonNegative(g);
    AbsSumOfScaled(1.0 / s, g);
    assert Abs(1.0 / s) == 1.0 / s;
    Reciprocal(1.0 / s, s);
  }

  lemma ReciprocalSquared(k: real, r: real, kk: real, s: real)
    requires r != 0.0 && k == 1.0 / r && kk == k * k && s == r * r
    ensures kk * s == 1.0
  {
    Reciprocal(k, r);
    ProductSquared(k, r, 1.0, kk, s);
  }

  /** With the L2 order and a correct square root, a non-zero gradient becomes a direction whose squares sum to 1. */
  lemma L2DirectionIsUnit(g: Sample, sqrt: real -> real)
    requires g != [] && Defined(Order(2.0), g, sqrt)
    requires IsRoot(sqrt, SumSquares(g))
    ensures SumSquares(Direction(Order(2.0), g, sqrt)) == 1.0
  {
    var r := sqrt(SumSquares(g));
    SumSquaresOfScaled(1.0 / r, g);
    ReciprocalSquared(1.0 / r, r, Square(1.0 / r), SumSquares(g));
  }

  lemma ScaleOfNegated(k: real, s: Sample)
    ensures Scale(k, Negated(s)) == Negated(Scale(k, s))
  {
    assert forall j :: 0 <= j < |s| ==> Scale(k, Negated(s))[j] == k * -s[j] == -(k * s[j]) == Negated(Scale(k, s))[j];
  }

  lemma DenominatorOfNegated(n: NormOrder, g: Sample, sqrt: real -> real)
    ensures Denominator(n, Negated(g), sqrt) == Denominator(n, g, sqrt)
  {
    AbsSumOfNegated(g);
    SumSquaresOfNegated(g);
  }

  /** Negating the gradient negates its direction, for every order, and keeps the division defined. */
  lemma DirectionOfNegated(n: NormOrder, g: Sample, sqrt: real -> real)
    requires Defined(n, g, sqrt)
    ensures Defined(n, Negated(g), sqrt)
    ensures Direction(n, Negated(g), sqrt) == Negated(Direction(n, g, sqrt))
  {
    DenominatorOfNegated(n, g, sqrt);
    if n == Infinity {
      forall j | 0 <= j < |g|
        ensures Direction(n, Negated(g), sqrt)[j] == Negated(Direction(n, g, sqrt))[j]
      {
        SignFacts(g[j]);
      }
    } else if (n == Order(1.0) || n == Order(2.0)) && g != [] {
      ScaleOfNegated(1.0 / Denominator(n, g, sqrt), g);
    }
  }
}
