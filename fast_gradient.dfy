/**
  The single-step Fast Gradient Method of src/attacks/fast_gradient.py:
  the parameter checks of set_params, the perturbation of _compute, and the
  label resolution at the start of generate.
 */
module FastGradient {
  import opened Tensors
  import opened Norms

  /**
    The classifier the attack queries. Its model is not part of this project:
    `predict` and `lossGradient` are arbitrary functions of their inputs, and
    `clipMin`, `clipMax` are its clip_values.
   */
  datatype Classifier = Classifier(
    clipMin: real,
    clipMax: real,
    predict: Batch -> Batch,
    lossGradient: (Batch, Batch) -> Batch)

  /** What can go wrong, as an exception of the source or a non-finite array. */
  datatype Error =
    | InvalidNorm        // ValueError: norm order not np.inf, 1 or 2
    | EpsOutOfRange      // ValueError: eps outside the data range
    | ShapeMismatch      // AssertionError: gradient shape differs from x's
    | NotFinite          // a division by zero, for which numpy yields NaN or inf
    | IndexOutOfRange    // IndexError: a label row selected that does not exist
    | DuplicateArgument  // TypeError: y bound twice in one call

  datatype Result<T> = Success(value: T) | Failure(error: Error)

  /** The outcome of set_params: True, or the exception it raises. */
  datatype Outcome = Accepted | Rejected(error: Error)

  // ---------------------------------------------------------------------
  // set_params
  // ---------------------------------------------------------------------

  /** The checks of set_params on the stored norm and eps, against the classifier's clip values. */
  function Validate(norm: NormOrder, eps: real, clipMin: real, clipMax: real): (o: Outcome)
    ensures o == Accepted <==> Supported(norm) && clipMin < eps <= clipMax
    ensures o == Rejected(InvalidNorm) <==> !Supported(norm)
    ensures o == Rejected(EpsOutOfRange) <==> Supported(norm) && (eps <= clipMin || eps > clipMax)
  {
    if !Supported(norm) then Rejected(InvalidNorm)
    else if eps <= clipMin || eps > clipMax then Rejected(EpsOutOfRange)
    else Accepted
  }

  /** The configuration set_params accepts leaves a non-empty clip range. */
  lemma AcceptedRangeIsNonEmpty(norm: NormOrder, eps: real, clipMin: real, clipMax: real)
    requires Validate(norm, eps, clipMin, clipMax) == Accepted
    ensures clipMin < clipMax
  {
  }

  // ---------------------------------------------------------------------
  // _compute
  // ---------------------------------------------------------------------

  /** The factor 1 - 2 * int(targeted) the gradient is multiplied by. */
  function TargetFactor(targeted: bool): (f: real)
    ensures f == 1.0 || f == -1.0
    ensures f < 0.0 <==> targeted
  {
    1.0 - 2.0 * (if targeted then 1.0 else 0.0)
  }

  /** One sample's loss gradient, multiplied by the target factor. */
  function Signed(targeted: bool, g: Sample): (s: Sample)
    ensures |s| == |g|
  {
    Scale(TargetFactor(targeted), g)
  }

  /** Signing the gradient changes no element's magnitude. */
  lemma SignedKeepsMagnitudes(targeted: bool, g: Sample)
    ensures forall j :: 0 <= j < |g| ==> Abs(Signed(targeted, g)[j]) == Abs(g[j])
  {
    forall j | 0 <= j < |g|
      ensures Abs(Signed(targeted, g)[j]) == Abs(g[j])
    {
      AbsOfProduct(TargetFactor(targeted), g[j]);
    }
  }

  /** An untargeted attack keeps the gradient; a targeted attack negates it. */
  lemma SignedIsNegation(g: Sample)
    ensures Signed(false, g) == g
    ensures Signed(true, g) == Negated(g)
  {
    assert forall j :: 0 <= j < |g| ==> Signed(false, g)[j] == g[j];
    assert forall j :: 0 <= j < |g| ==> Signed(true, g)[j] == Negated(g)[j];
  }

  /** Every sample's signed gradient can be projected without dividing by zero. */
  predicate RowsDefined(norm: NormOrder, targeted: bool, sqrt: real -> real, g: Batch)
  {
    forall i :: 0 <= i < |g| ==> Defined(norm, Signed(targeted, g[i]), sqrt)
  }

  /** eps times the projected direction of one sample: what _compute adds before clipping. */
  function Step(norm: NormOrder, targeted: bool, sqrt: real -> real, g: Sample, eps: real): (s: Sample)
    requires Defined(norm, Signed(targeted, g), sqrt)
    ensures |s| == |g|
  {
    Scale(eps, Direction(norm, Signed(targeted, g), sqrt))
  }

  /** With the infinity norm, the step moves no element by more than abs(eps). */
  lemma LinfStepBounded(targeted: bool, sqrt: real -> real, g: Sample, eps: real)
    ensures Defined(Infinity, Signed(targeted, g), sqrt)
    ensures forall j :: 0 <= j < |g| ==> Abs(Step(Infinity, targeted, sqrt, g, eps)[j]) <= Abs(eps)
  {
    SignDirection(Signed(targeted, g), sqrt);
    forall j | 0 <= j < |g|
      ensures Abs(Step(Infinity, targeted, sqrt, g, eps)[j]) <= Abs(eps)
    {
      StepOfSignBounded(eps, Direction(Infinity, Signed(targeted, g), sqrt)[j]);
    }
  }

  /** One sample moved by a step and clipped into [lo, hi]. */
  function Perturbed(x: Sample, s: Sample, lo: real, hi: real): (r: Sample)
    requires |x| == |s|
    ensures |r| == |x|
  {
    seq(|x|, j requires 0 <= j < |x| => Clip(x[j] + s[j], lo, hi))
  }

  predicate SameShape(a: Batch, b: Batch)
  {
    |a| == |b| && forall i :: 0 <= i < |a| ==> |a[i]| == |b[i]|
  }

  predicate InRange(x: Batch, lo: real, hi: real)
  {
    forall i, j :: 0 <= i < |x| && 0 <= j < |x[i]| ==> lo <= x[i][j] <= hi
  }

  /**
    _compute(x, y, eps): the classifier's loss gradient, signed for a
    targeted attack, projected sample by sample, scaled by eps, added to x
    and clipped. A gradient of another shape fails the assertion; a zero L1
    or L2 denominator would give NaN or inf and is reported as NotFinite.
   */
  function Compute(c: Classifier, norm: NormOrder, targeted: bool, sqrt: real -> real,
                   x: Batch, y: Batch, eps: real): (r: Result<Batch>)
    ensures r == Failure(ShapeMismatch) <==> !SameShape(c.lossGradient(x, y), x)
    ensures r == Failure(NotFinite) <==>
      SameShape(c.lossGradient(x, y), x) && !RowsDefined(norm, targeted, sqrt, c.lossGradient(x, y))
    ensures r.Success? || r == Failure(ShapeMismatch) || r == Failure(NotFinite)
    ensures r.Success? ==> SameShape(r.value, x)
  {
    var g := c.lossGradient(x, y);
    if !SameShape(g, x) then Failure(ShapeMismatch)
    else if !RowsDefined(norm, targeted, sqrt, g) then Failure(NotFinite)
    else Success(seq(|x|, i requires 0 <= i < |x| =>
      Perturbed(x[i], Step(norm, targeted, sqrt, g[i], eps), c.clipMin, c.clipMax)))
  }

  /** Each output sample is its own input sample moved by its own step: samples do not mix. */
  lemma ComputeRow(c: Classifier, norm: NormOrder, targeted: bool, sqrt: real -> real,
                   x: Batch, y: Batch, eps: real, i: int)
    requires Compute(c, norm, targeted, sqrt, x, y, eps).Success?
    requires 0 <= i < |x|
    ensures Defined(norm, Signed(targeted, c.lossGradient(x, y)[i]), sqrt)
    ensures Compute(c, norm, targeted, sqrt, x, y, eps).value[i] ==
      Perturbed(x[i], Step(norm, targeted, sqrt, c.lossGradient(x, y)[i], eps), c.clipMin, c.clipMax)
  {
  }

  /** Two calls whose i-th input sample and i-th gradient agree produce the same i-th output sample. */
  lemma NoMixingAcrossSamples(c: Classifier, d: Classifier, norm: NormOrder, targeted: bool, sqrt: real -> real,
                              x: Batch, y: Batch, x': Batch, y': Batch, eps: real, i: int)
    requires c.clipMin == d.clipMin && c.clipMax == d.clipMax
    requires Compute(c, norm, targeted, sqrt, x, y, eps).Success?
    requires Compute(d, norm, targeted, sqrt, x', y', eps).Success?
    requires 0 <= i < |x| && i < |x'|
    requires x[i] == x'[i] && c.lossGradient(x, y)[i] == d.lossGradient(x', y')[i]
    ensures Compute(c, norm, targeted, sqrt, x, y, eps).value[i] == Compute(d, norm, targeted, sqrt, x', y', eps).value[i]
  {
    ComputeRow(c, norm, targeted, sqrt, x, y, eps, i);
    ComputeRow(d, norm, targeted, sqrt, x', y', eps, i);
  }

  /** np.clip puts every element of the result into the clip range. */
  lemma ComputeInRange(c: Classifier, norm: NormOrder, targeted: bool, sqrt: real -> real,
                       x: Batch, y: Batch, eps: real)
    requires c.clipMin <= c.clipMax
    requires Compute(c, norm, targeted, sqrt, x, y, eps).Success?
    ensures InRange(Compute(c, norm, targeted, sqrt, x, y, eps).value, c.clipMin, c.clipMax)
  {
    var r := Compute(c, norm, targeted, sqrt, x, y, eps).value;
    forall i, j | 0 <= i < |r| && 0 <= j < |r[i]|
      ensures c.clipMin <= r[i][j] <= c.clipMax
    {
      var s := Step(norm, targeted, sqrt, c.lossGradient(x, y)[i], eps);
      ClipFacts(x[i][j] + s[j], c.clipMin, c.clipMax);
    }
  }

  /** Clipping puts every element of a perturbed sample into [lo, hi] whenever lo <= hi. */
  lemma PerturbedInRange(x: Sample, s: Sample, lo: real, hi: real)
    requires |x| == |s| && lo <= hi
    ensures forall j :: 0 <= j < |x| ==> lo <= Perturbed(x, s, lo, hi)[j] <= hi
  {
  }

  /** Clipping a moved in-range sample moves no element further than the step did. */
  lemma PerturbedMovesNoFurther(x: Sample, s: Sample, lo: real, hi: real)
    requires |x| == |s|
    requires forall j :: 0 <= j < |x| ==> lo <= x[j] <= hi
    ensures forall j :: 0 <= j < |x| ==> Abs(Diff(Perturbed(x, s, lo, hi), x)[j]) <= Abs(s[j])
  {
    forall j | 0 <= j < |x|
      ensures Abs(Diff(Perturbed(x, s, lo, hi), x)[j]) <= Abs(s[j])
    {
      ClipMovesNoFurther(x[j], s[j], lo, hi);
    }
  }

  lemma StepOfSignBounded(eps: real, d: real)
    requires d == -1.0 || d == 0.0 || d == 1.0
    ensures Abs(eps * d) <= Abs(eps)
  {
  }

  /** With the infinity norm, an input inside the clip range moves by at most |eps| in every element. */
  lemma ComputeWithinLinfBall(c: Classifier, targeted: bool, sqrt: real -> real,
                              x: Batch, y: Batch, eps: real)
    requires InRange(x, c.clipMin, c.clipMax)
    requires Compute(c, Infinity, targeted, sqrt, x, y, eps).Success?
    ensures var r := Compute(c, Infinity, targeted, sqrt, x, y, eps).value;
      forall i, j :: 0 <= i < |x| && 0 <= j < |x[i]| ==> Abs(r[i][j] - x[i][j]) <= Abs(eps)
  {
    var r := Compute(c, Infinity, targeted, sqrt, x, y, eps).value;
    var g := c.lossGradient(x, y);
    forall i, j | 0 <= i < |x| && 0 <= j < |x[i]|
      ensures Abs(r[i][j] - x[i][j]) <= Abs(eps)
    {
      var s := Step(Infinity, targeted, sqrt, g[i], eps);
      PerturbedMovesNoFurther(x[i], s, c.clipMin, c.clipMax);
      assert Diff(r[i], x[i])[j] == r[i][j] - x[i][j];
      SignDirection(Signed(targeted, g[i]), sqrt);
      StepOfSignBounded(eps, Direction(Infinity, Signed(targeted, g[i]), sqrt)[j]);
    }
  }

  /** With the L1 norm, an input sample inside the clip range moves by at most |eps| in L1 norm. */
  lemma ComputeWithinL1Ball(c: Classifier, targeted: bool, sqrt: real -> real,
                            x: Batch, y: Batch, eps: real)
    requires InRange(x, c.clipMin, c.clipMax)
    requires Compute(c, Order(1.0), targeted, sqrt, x, y, eps).Success?
    ensures var r := Compute(c, Order(1.0), targeted, sqrt, x, y, eps).value;
      forall i :: 0 <= i < |x| ==> AbsSum(Diff(r[i], x[i])) <= Abs(eps)
  {
    var r := Compute(c, Order(1.0), targeted, sqrt, x, y, eps).value;
    var g := c.lossGradient(x, y);
    forall i | 0 <= i < |x|
      ensures AbsSum(Diff(r[i], x[i])) <= Abs(eps)
    {
      var d := Direction(Order(1.0), Signed(targeted, g[i]), sqrt);
      var s := Scale(eps, d);
      PerturbedMovesNoFurther(x[i], s, c.clipMin, c.clipMax);
      AbsSumMonotone(Diff(r[i], x[i]), s);
      AbsSumOfScaled(eps, d);
      if x[i] == [] {
        assert Magnitudes(d) == [];
      } else {
        L1DirectionIsUnit(Signed(targeted, g[i]), sqrt);
      }
    }
  }

  /** With the L2 norm and a correct square root, an input sample inside the clip range moves by at most |eps| in L2 norm. */
  lemma ComputeWithinL2Ball(c: Classifier, targeted: bool, sqrt: real -> real,
                            x: Batch, y: Batch, eps: real)
    requires InRange(x, c.clipMin, c.clipMax)
    requires Compute(c, Order(2.0), targeted, sqrt, x, y, eps).Success?
    requires forall i :: 0 <= i < |x| ==> IsRoot(sqrt, SumSquares(Signed(targeted, c.lossGradient(x, y)[i])))
    ensures var r := Compute(c, Order(2.0), targeted, sqrt, x, y, eps).value;
      forall i :: 0 <= i < |x| ==> SumSquares(Diff(r[i], x[i])) <= Square(eps)
  {
    var r := Compute(c, Order(2.0), targeted, sqrt, x, y, eps).value;
    var g := c.lossGradient(x, y);
    forall i | 0 <= i < |x|
      ensures SumSquares(Diff(r[i], x[i])) <= Square(eps)
    {
      var d := Direction(Order(2.0), Signed(targeted, g[i]), sqrt);
      var s := Scale(eps, d);
      PerturbedMovesNoFurther(x[i], s, c.clipMin, c.clipMax);
      SumSquaresMonotone(Diff(r[i], x[i]), s);
      SumSquaresOfScaled(eps, d);
      if x[i] == [] {
        assert Squares(d) == [];
        assert Square(eps) >= 0.0;
      } else {
        L2DirectionIsUnit(Signed(targeted, g[i]), sqrt);
      }
    }
  }

  /**
    Before clipping, the targeted step is exactly the negation of the
    untargeted one, for every norm order, and one is defined exactly when the
    other is.
   */
  lemma TargetedStepIsNegated(norm: NormOrder, sqrt: real -> real, g: Sample, eps: real)
    ensures Defined(norm, Signed(true, g), sqrt) <==> Defined(norm, Signed(false, g), sqrt)
    ensures Defined(norm, Signed(false, g), sqrt) ==>
      Step(norm, true, sqrt, g, eps) == Negated(Step(norm, false, sqrt, g, eps))
  {
    SignedIsNegation(g);
    if Defined(norm, g, sqrt) {
      DirectionOfNegated(norm, g, sqrt);
      ScaleOfNegated(eps, Direction(norm, g, sqrt));
    }
    DenominatorOfNegated(norm, g, sqrt);
  }

  /** The targeted and untargeted attacks on the same inputs fail together, and otherwise perturb each sample in opposite directions. */
  lemma TargetedComputeIsNegated(c: Classifier, norm: NormOrder, sqrt: real -> real, x: Batch, y: Batch, eps: real)
    ensures Compute(c, norm, true, sqrt, x, y, eps).Success? <==> Compute(c, norm, false, sqrt, x, y, eps).Success?
    ensures Compute(c, norm, false, sqrt, x, y, eps).Success? ==>
      forall i :: 0 <= i < |x| ==>
        Step(norm, true, sqrt, c.lossGradient(x, y)[i], eps) == Negated(Step(norm, false, sqrt, c.lossGradient(x, y)[i], eps))
  {
    var g := c.lossGradient(x, y);
    forall i | 0 <= i < |g|
      ensures Defined(norm, Signed(true, g[i]), sqrt) <==> Defined(norm, Signed(false, g[i]), sqrt)
    {
      TargetedStepIsNegated(norm, sqrt, g[i], eps);
    }
    if Compute(c, norm, false, sqrt, x, y, eps).Success? {
      forall i | 0 <= i < |x|
        ensures Step(norm, true, sqrt, g[i], eps) == Negated(Step(norm, false, sqrt, g[i], eps))
      {
        TargetedStepIsNegated(norm, sqrt, g[i], eps);
      }
    }
  }

  /** With eps = 0 the perturbation vanishes: the result is the clipped input, and an in-range input comes back unchanged. */
  lemma ComputeZeroEps(c: Classifier, norm: NormOrder, targeted: bool, sqrt: real -> real, x: Batch, y: Batch)
    requires Compute(c, norm, targeted, sqrt, x, y, 0.0).Success?
    ensures var r := Compute(c, norm, targeted, sqrt, x, y, 0.0).value;
      forall i, j :: 0 <= i < |x| && 0 <= j < |x[i]| ==> r[i][j] == Clip(x[i][j], c.clipMin, c.clipMax)
    ensures InRange(x, c.clipMin, c.clipMax) ==> Compute(c, norm, targeted, sqrt, x, y, 0.0).value == x
  {
    var r := Compute(c, norm, targeted, sqrt, x, y, 0.0).value;
    forall i, j | 0 <= i < |x| && 0 <= j < |x[i]|
      ensures r[i][j] == Clip(x[i][j], c.clipMin, c.clipMax)
    {
      ComputeRow(c, norm, targeted, sqrt, x, y, 0.0, i);
    }
    if InRange(x, c.clipMin, c.clipMax) {
      forall i | 0 <= i < |x|
        ensures r[i] == x[i]
      {
        forall j | 0 <= j < |x[i]|
          ensures r[i][j] == x[i][j]
        {
          ClipFacts(x[i][j], c.clipMin, c.clipMax);
        }
      }
    }
  }

  /** A classifier for the example below: its loss gradient is the same batch whatever it is asked. */
  function ExampleClassifier(): Classifier
  {
    Classifier(0.0, 1.0, b => b, (b, l) => [[1.0, -1.0, 0.0, 2.0], [0.0, 0.0, 0.0, 0.0]])
  }

  /**
    A batch of two samples of shape (4,) whose gradients are [1, -1, 0, 2]
    and all zeros, attacked with the infinity norm, eps = 0.1, untargeted:
    the directions are [1, -1, 0, 1] and all zeros, so the zero gradient
    leaves its sample where it was.
   */
  lemma LinfExample(sqrt: real -> real)
    ensures Direction(Infinity, Signed(false, [1.0, -1.0, 0.0, 2.0]), sqrt) == [1.0, -1.0, 0.0, 1.0]
    ensures Direction(Infinity, Signed(false, [0.0, 0.0, 0.0, 0.0]), sqrt) == [0.0, 0.0, 0.0, 0.0]
    ensures Compute(ExampleClassifier(), Infinity, false, sqrt,
                    [[0.5, 0.5, 0.5, 0.5], [0.5, 0.5, 0.5, 0.5]], [[1.0, 0.0], [0.0, 1.0]], 0.1)
         == Success([[0.6, 0.4, 0.5, 0.6], [0.5, 0.5, 0.5, 0.5]])
  {
    var g := [[1.0, -1.0, 0.0, 2.0], [0.0, 0.0, 0.0, 0.0]];
    var x := [[0.5, 0.5, 0.5, 0.5], [0.5, 0.5, 0.5, 0.5]];
    var y := [[1.0, 0.0], [0.0, 1.0]];
    var c := ExampleClassifier();
    assert c.lossGradient(x, y) == g;
    SignedIsNegation(g[0]);
    SignedIsNegation(g[1]);
    assert Direction(Infinity, g[0], sqrt) == [1.0, -1.0, 0.0, 1.0];
    assert Direction(Infinity, g[1], sqrt) == [0.0, 0.0, 0.0, 0.0];
    assert Step(Infinity, false, sqrt, g[0], 0.1) == [0.1, -0.1, 0.0, 0.1];
    assert Step(Infinity, false, sqrt, g[1], 0.1) == [0.0, 0.0, 0.0, 0.0];
    var r := Compute(c, Infinity, false, sqrt, x, y, 0.1);
    assert r.Success?;
    assert r.value[0] == [0.6, 0.4, 0.5, 0.6];
    assert r.value[1] == [0.5, 0.5, 0.5, 0.5];
    assert r.value == [r.value[0], r.value[1]];
  }

  // ---------------------------------------------------------------------
  // Label resolution in generate
  // ---------------------------------------------------------------------

  /** Some non-empty row sums to zero, so dividing by the row sums would give NaN or inf. */
  predicate HasZeroRowSum(y: Batch)
  {
    exists i :: 0 <= i < |y| && y[i] != [] && Sum(y[i]) == 0.0
  }

  /** y / np.sum(y, axis=1, keepdims=True): every row divided by its own sum. */
  function NormaliseRows(y: Batch): (r: Result<Batch>)
    ensures r.Failure? <==> HasZeroRowSum(y)
    ensures r.Failure? ==> r.error == NotFinite
    ensures r.Success? ==> SameShape(r.value, y)
  {
    if HasZeroRowSum(y) then Failure(NotFinite)
    else Success(seq(|y|, i requires 0 <= i < |y| => if y[i] == [] then [] else Scale(1.0 / Sum(y[i]), y[i])))
  }

  /** A row divided by its non-zero sum sums to 1, and multiplied by that sum gives back the row. */
  lemma NormalisedRow(row: Sample)
    requires Sum(row) != 0.0
    ensures Sum(Scale(1.0 / Sum(row), row)) == 1.0
    ensures Scale(Sum(row), Scale(1.0 / Sum(row), row)) == row
  {
    var t := Sum(row);
    SumOfScaled(1.0 / t, row);
    Reciprocal(1.0 / t, t);
    ScaleByReciprocal(t, row);
  }

  /** Each normalised row sums to 1 and, multiplied by the original row sum, gives back the original row. */
  lemma NormalisedRowsAreDistributions(y: Batch)
    requires NormaliseRows(y).Success?
    ensures var r := NormaliseRows(y).value;
      forall i :: 0 <= i < |y| && y[i] != [] ==> Sum(r[i]) == 1.0 && Scale(Sum(y[i]), r[i]) == y[i]
  {
    var r := NormaliseRows(y).value;
    forall i | 0 <= i < |y| && y[i] != []
      ensures Sum(r[i]) == 1.0 && Scale(Sum(y[i]), r[i]) == y[i]
    {
      assert r[i] == Scale(1.0 / Sum(y[i]), y[i]);
      NormalisedRow(y[i]);
    }
  }

  /** The y keyword as generate receives it: missing, given as None, or given as an array. */
  datatype LabelArg = Absent | GivenNone | Given(y: Batch)

  /** The labels generate works from: the caller's y when one is given, otherwise the classifier's predictions on x. */
  function LabelSource(c: Classifier, x: Batch, arg: LabelArg): (y: Batch)
    ensures arg.Given? ==> y == arg.y
    ensures !arg.Given? ==> y == c.predict(x)
  {
    if arg.Given? then arg.y else c.predict(x)
  }

  /** The label resolution of generate: choose the labels, then normalise their rows. */
  function ResolveLabels(c: Classifier, x: Batch, arg: LabelArg): (r: Result<Batch>)
    ensures r.Failure? <==> HasZeroRowSum(LabelSource(c, x, arg))
    ensures r.Success? ==> SameShape(r.value, LabelSource(c, x, arg))
  {
    NormaliseRows(LabelSource(c, x, arg))
  }

  /** Resolved labels are row distributions proportional to the caller's y, or to the predictions when y is missing or None. */
  lemma ResolvedLabels(c: Classifier, x: Batch, arg: LabelArg)
    requires ResolveLabels(c, x, arg).Success?
    ensures var r := ResolveLabels(c, x, arg).value;
      var src := if arg.Given? then arg.y else c.predict(x);
      |r| == |src| &&
      forall i :: 0 <= i < |src| && src[i] != [] ==> Sum(r[i]) == 1.0 && Scale(Sum(src[i]), r[i]) == src[i]
  {
    NormalisedRowsAreDistributions(LabelSource(c, x, arg));
  }
}
