/**
  The FastGradientMethod object of src/attacks/fast_gradient.py: the
  configuration it keeps in fields, set_params, the constructor, and
  generate with the keyword arguments it receives.
 */
module Attack {
  import opened Tensors
  import opened Norms
  import opened FastGradient
  import opened MinimalSearch

  datatype Option<T> = None | Some(value: T)

  function ValueOr<T>(o: Option<T>, default: T): T
  {
    if o.Some? then o.value else default
  }

  /** The defaults of _minimal_perturbation's eps_step and eps_max. */
  const DefaultEpsStep: real := 0.1
  const DefaultEpsMax: real := 1.0

  /**
    The keyword arguments of a generate call that some callee reads. Any
    other keyword is stored by no one and changes nothing. `minimal` is false
    when the key is missing.
   */
  datatype Kwargs = Kwargs(norm: Option<NormOrder>, eps: Option<real>, targeted: Option<bool>,
                           y: LabelArg, minimal: bool, epsStep: Option<real>, epsMax: Option<real>)

  /** The parameters _minimal_perturbation binds beside x and y. */
  datatype MinimalArgs = MinimalArgs(epsStep: real, epsMax: real)

  /**
    The call _minimal_perturbation(x, y, **kwargs) of line 101, as written:
    y is passed by position, so a 'y' key in kwargs, even one holding None,
    binds the same parameter a second time and Python raises TypeError.
   */
  function BindMinimalCall(kw: Kwargs): (r: Result<MinimalArgs>)
    ensures r.Failure? <==> kw.y != Absent
    ensures r.Failure? ==> r.error == DuplicateArgument
    ensures r.Success? ==> r.value.epsStep == ValueOr(kw.epsStep, DefaultEpsStep)
    ensures r.Success? ==> r.value.epsMax == ValueOr(kw.epsMax, DefaultEpsMax)
  {
    if kw.y != Absent then Failure(DuplicateArgument)
    else Success(MinimalArgs(ValueOr(kw.epsStep, DefaultEpsStep), ValueOr(kw.epsMax, DefaultEpsMax)))
  }

  /** The same call with the 'y' key taken out of kwargs: the resolved labels go in by position only. */
  function BindMinimalCallFixed(kw: Kwargs): (a: MinimalArgs)
    ensures BindMinimalCall(kw.(y := Absent)) == Success(a)
  {
    MinimalArgs(ValueOr(kw.epsStep, DefaultEpsStep), ValueOr(kw.epsMax, DefaultEpsMax))
  }

  /** generate(x, y=labels, minimal=True) reaches the call of line 101 and fails there. */
  lemma GivenLabelsBreakMinimal()
    ensures BindMinimalCall(Kwargs(None, None, None, Given([[1.0, 0.0]]), true, None, None)) == Failure(DuplicateArgument)
    ensures BindMinimalCall(Kwargs(None, None, None, GivenNone, true, None, None)) == Failure(DuplicateArgument)
  {
  }

  /**
    The corrected binding never fails, does not depend on the y keyword,
    and agrees with the call as written whenever that one succeeds.
   */
  lemma FixedBindingAgrees(kw: Kwargs, y: LabelArg)
    ensures BindMinimalCallFixed(kw) == BindMinimalCallFixed(kw.(y := y))
    ensures BindMinimalCallFixed(kw) == BindMinimalCall(kw.(y := Absent)).value
    ensures BindMinimalCall(kw).Success? ==> BindMinimalCall(kw).value == BindMinimalCallFixed(kw)
  {
  }

  /** The intended rule of line 65 for the resolved labels y: a sample stays active while it is still classified as labelled. */
  function StillCorrectFor(y: Batch): (Batch, nat) -> bool
  {
    (preds: Batch, i: nat) => StillCorrect(y, preds, i)
  }

  /**
    With the rule of line 65 as intended, a sample leaves the active set after
    pass k only when the predictions taken in pass k no longer give it the
    class of its label, and it keeps from then on the row pass k left. Those
    predictions are of adv_x as it stood before pass k wrote its rows: the
    rows of pass k - 1, or x itself for the first pass.
   */
  lemma DroppedSampleWasMisclassified(c: Classifier, x: Batch, y: Batch, epsStep: real, epsMax: real,
                                      trace: seq<Pass>, k: nat, i: nat)
    requires Ran(c, x, epsStep, epsMax, StillCorrectFor(y), trace)
    requires 0 < k < |trace| && i < |x| && i in trace[k - 1].active && i !in trace[k].active
    ensures trace[k - 1].preds == c.predict(trace[k - 1].before)
    ensures k > 1 ==> trace[k - 1].before == trace[k - 2].after
    ensures !StillCorrect(y, trace[k - 1].preds, i)
    ensures |trace[|trace| - 1].after| == |trace[k - 1].after| == |x|
    ensures trace[|trace| - 1].after[i] == trace[k - 1].after[i]
  {
    assert PassRan(c, x, epsStep, epsMax, k, trace[k - 1]);
    DroppedSampleKeepsRow(c, x, epsStep, epsMax, StillCorrectFor(y), trace, k, |trace| - 1, i);
    assert StillCorrectFor(y)(trace[k - 1].preds, i) == StillCorrect(y, trace[k - 1].preds, i);
  }

  /**
    What the minimal branch of generate delivers for labels y and the bound
    keywords a: the IndexError of line 60 exactly when the labels are short;
    any other error only as _compute's failure on the pass after a run of
    passes under the intended active-set rule; and otherwise such a run,
    ended by the guard of line 58 (no sample left, or the next eps beyond
    eps_max) and empty only for an empty batch or eps_step > eps_max, whose
    last batch is the result.
   */
  ghost predicate MinimalOutcome(c: Classifier, norm: NormOrder, targeted: bool, sqrt: real -> real,
                                 x: Batch, y: Batch, a: MinimalArgs,
                                 r: Result<Batch>, origins: seq<Origin>, passes: nat, trace: seq<Pass>)
  {
    (r == Failure(IndexOutOfRange) <==> |x| > 0 && a.epsStep <= a.epsMax && |y| < |x|) &&
    (r.Failure? && r.error != IndexOutOfRange ==>
       passes <= MaxPasses(a.epsStep, a.epsMax) && |trace| == passes &&
       Ran(c, x, a.epsStep, a.epsMax, StillCorrectFor(y), trace) &&
       Computed(c, norm, targeted, sqrt, x, y, a.epsStep, trace) &&
       FailedAt(c, norm, targeted, sqrt, x, y, a.epsStep, a.epsMax, StillCorrectFor(y), trace, r.error)) &&
    (r.Success? ==> passes <= MaxPasses(a.epsStep, a.epsMax) &&
                    AllRowsFrom(c, norm, targeted, sqrt, x, y, a.epsStep, r.value, origins, passes) &&
                    Latest(origins, trace) &&
                    |trace| == passes &&
                    Ran(c, x, a.epsStep, a.epsMax, StillCorrectFor(y), trace) &&
                    Computed(c, norm, targeted, sqrt, x, y, a.epsStep, trace) &&
                    r.value == (if passes == 0 then x else trace[passes - 1].after) &&
                    (passes > 0 ==> NextActive(trace[passes - 1], StillCorrectFor(y)) == [] ||
                                    EpsAtPass(passes + 1, a.epsStep) > a.epsMax) &&
                    (passes == 0 <==> |x| == 0 || a.epsMax < a.epsStep))
  }

  /** The minimal branch fails only with the IndexError of line 60 or with an error of _compute, never with one of set_params. */
  lemma MinimalErrors(c: Classifier, norm: NormOrder, targeted: bool, sqrt: real -> real,
                      x: Batch, y: Batch, a: MinimalArgs,
                      r: Result<Batch>, origins: seq<Origin>, passes: nat, trace: seq<Pass>)
    requires MinimalOutcome(c, norm, targeted, sqrt, x, y, a, r, origins, passes, trace)
    requires r.Failure?
    ensures r.error == IndexOutOfRange || r.error == ShapeMismatch || r.error == NotFinite
  {
    if r.error != IndexOutOfRange {
      FailedAtComputeError(c, norm, targeted, sqrt, x, y, a.epsStep, a.epsMax, StillCorrectFor(y), trace, r.error);
    }
  }

  /** _minimal_perturbation(x, y, **kwargs) of line 101, with the corrected binding and the intended rule of line 65. */
  method RunMinimal(c: Classifier, norm: NormOrder, targeted: bool, sqrt: real -> real, x: Batch, y: Batch, a: MinimalArgs)
      returns (r: Result<Batch>, ghost origins: seq<Origin>, ghost passes: nat, ghost trace: seq<Pass>)
    requires Terminates(a.epsStep, a.epsMax, |x|)
    ensures MinimalOutcome(c, norm, targeted, sqrt, x, y, a, r, origins, passes, trace)
    ensures r.Success? && c.clipMin <= c.clipMax && InRange(x, c.clipMin, c.clipMax) ==> InRange(r.value, c.clipMin, c.clipMax)
  {
    r, origins, passes, trace := MinimalPerturbation(c, norm, targeted, sqrt, x, y, a.epsStep, a.epsMax, StillCorrectFor(y));
  }

  class FastGradientMethod {
    /** The attacked classifier, stored by Attack.__init__. */
    const classifier: Classifier
    /** np.sqrt, used by the L2 branch of _compute. */
    const sqrt: real -> real
    /** The attack_params norm, eps and targeted. */
    var norm: NormOrder
    var eps: real
    var targeted: bool

    /** The object before set_params has run, holding the defaults of __init__. */
    constructor (classifier: Classifier, sqrt: real -> real)
      ensures this.classifier == classifier && this.sqrt == sqrt
      ensures norm == Infinity && eps == 0.3 && !targeted
    {
      this.classifier := classifier;
      this.sqrt := sqrt;
      norm := Infinity;
      eps := 0.3;
      targeted := false;
    }

    /**
      set_params(**kwargs): every given parameter is stored first, even when
      the checks then raise; the checks run on the stored configuration.
     */
    method SetParams(norm: Option<NormOrder>, eps: Option<real>, targeted: Option<bool>) returns (o: Outcome)
      modifies this
      ensures this.norm == ValueOr(norm, old(this.norm))
      ensures this.eps == ValueOr(eps, old(this.eps))
      ensures this.targeted == ValueOr(targeted, old(this.targeted))
      ensures o == Validate(this.norm, this.eps, classifier.clipMin, classifier.clipMax)
    {
      this.norm := ValueOr(norm, this.norm);
      this.eps := ValueOr(eps, this.eps);
      this.targeted := ValueOr(targeted, this.targeted);
      o := Validate(this.norm, this.eps, classifier.clipMin, classifier.clipMax);
    }

    /**
      generate(x, **kwargs). set_params on the keywords; the labels from y or
      from the predictions, row-normalised; then _compute at the stored eps,
      or the minimal search with the keywords of the corrected line 101 and
      the intended active-set rule.
     */
    method Generate(x: Batch, kw: Kwargs)
        returns (r: Result<Batch>, ghost origins: seq<Origin>, ghost passes: nat, ghost trace: seq<Pass>)
      requires kw.minimal && Validate(ValueOr(kw.norm, norm), ValueOr(kw.eps, eps), classifier.clipMin, classifier.clipMax) == Accepted &&
               ResolveLabels(classifier, x, kw.y).Success? ==>
        Terminates(BindMinimalCallFixed(kw).epsStep, BindMinimalCallFixed(kw).epsMax, |x|)
      modifies this
      ensures norm == ValueOr(kw.norm, old(norm))
      ensures eps == ValueOr(kw.eps, old(eps))
      ensures targeted == ValueOr(kw.targeted, old(targeted))
      ensures Validate(norm, eps, classifier.clipMin, classifier.clipMax).Rejected? ==>
        r == Failure(Validate(norm, eps, classifier.clipMin, classifier.clipMax).error)
      ensures Validate(norm, eps, classifier.clipMin, classifier.clipMax) == Accepted && ResolveLabels(classifier, x, kw.y).Failure? ==>
        r == Failure(NotFinite)
      ensures Validate(norm, eps, classifier.clipMin, classifier.clipMax) == Accepted && ResolveLabels(classifier, x, kw.y).Success? && !kw.minimal ==>
        r == Compute(classifier, norm, targeted, sqrt, x, ResolveLabels(classifier, x, kw.y).value, eps)
      ensures Validate(norm, eps, classifier.clipMin, classifier.clipMax) == Accepted && ResolveLabels(classifier, x, kw.y).Success? && kw.minimal ==>
        MinimalOutcome(classifier, norm, targeted, sqrt, x, ResolveLabels(classifier, x, kw.y).value,
                       BindMinimalCallFixed(kw), r, origins, passes, trace)
      ensures r.Success? && InRange(x, classifier.clipMin, classifier.clipMax) ==>
        InRange(r.value, classifier.clipMin, classifier.clipMax)
    {
      origins, passes, trace := [], 0, [];
      var o := SetParams(kw.norm, kw.eps, kw.targeted);
      if o.Rejected? {
        return Failure(o.error), origins, passes, trace;
      }
      AcceptedRangeIsNonEmpty(norm, eps, classifier.clipMin, classifier.clipMax);
      var labels := ResolveLabels(classifier, x, kw.y);
      if labels.Failure? {
        return Failure(labels.error), origins, passes, trace;
      }
      var y := labels.value;
      if kw.minimal {
        var a := BindMinimalCallFixed(kw);
        // _minimal_perturbation calls set_params again with the same keywords
        var o' := SetParams(kw.norm, kw.eps, kw.targeted);
        assert o' == Accepted;
        r, origins, passes, trace := RunMinimal(classifier, norm, targeted, sqrt, x, y, a);
        return r, origins, passes, trace;
      }
      r := Compute(classifier, norm, targeted, sqrt, x, y, eps);
      if r.Success? {
        ComputeInRange(classifier, norm, targeted, sqrt, x, y, eps);
      }
    }
  }

  /**
    FastGradientMethod(classifier, norm=np.inf, eps=.3, targeted=False): the
    object with the three parameters stored, and the outcome of the checks
    of set_params, which the constructor raises when they fail.
   */
  method Create(classifier: Classifier, sqrt: real -> real,
                norm: NormOrder := Infinity, eps: real := 0.3, targeted: bool := false)
      returns (a: FastGradientMethod, o: Outcome)
    ensures fresh(a)
    ensures a.classifier == classifier && a.sqrt == sqrt
    ensures a.norm == norm && a.eps == eps && a.targeted == targeted
    ensures o == Validate(norm, eps, classifier.clipMin, classifier.clipMax)
  {
    a := new FastGradientMethod(classifier, sqrt);
    o := a.SetParams(Some(norm), Some(eps), Some(targeted));
  }
}
