# Fast Gradient Method, modelled in Dafny

This project models `FastGradientMethod` of `src/attacks/fast_gradient.py`, an
adversarial attack on a classifier, and proves properties of that model. The
attack moves every input sample a step of size `eps` along the gradient of
the classifier's loss, then clips the result into the classifier's data range.
The gradient is projected per sample by its sign (infinity norm), by its L1
norm, or by its L2 norm, and negated for a targeted attack. In minimal mode the
attack runs passes at `eps_step`, `2 * eps_step`, and so on up to `eps_max`.
Each pass overwrites the rows of the samples still active. Under the
evidently intended rule of line 65 (see Left out), a sample stays active while
the predictions on `adv_x` give it its label's class. Those
predictions are taken at line 61, before the update of line 64, so they see
the rows of the previous pass. A sample whose row first fools the classifier
after pass k is therefore written once more by pass k + 1. It is dropped only
then, and it keeps the row of pass k + 1 (`DroppedSampleWasMisclassified`).

Files and modules:

- `tensors.dfy` (`Tensors`): samples as flattened `seq<real>` and batches as
  `seq<seq<real>>`. It defines the element-wise numpy operations the attack
  uses (`np.sign`, `np.abs`, `np.square`, `np.sum`, `np.clip`, scaling) with
  their algebra.
- `norms.dfy` (`Norms`): the norm order and the per-sample projection of the
  gradient.
- `fast_gradient.dfy` (`FastGradient`): the classifier as a collaborator, the
  checks of `set_params`, `_compute`, and the label resolution of `generate`.
- `minimal_search.dfy` (`MinimalSearch`): `_minimal_perturbation`. It is an
  imperative loop over an `array` holding `adv_x`, whose active rows are
  overwritten in place on every pass. A ghost record of the passes (`Pass`,
  `Ran`, `Computed`) states what each pass saw, predicted and wrote.
- `attack.dfy` (`Attack`): the `FastGradientMethod` object, with its
  configuration fields updated by `SetParams`, its construction, and
  `Generate` with the keyword arguments it receives.

The classifier is a value holding `predict`, `loss_gradient` and
`clip_values`. `predict` and `loss_gradient` are arbitrary functions, so every
property holds for every classifier. A NaN or an infinity that numpy would
produce by dividing by zero is reported as the error `NotFinite`. Each
exception of the source is its own error value:

- `InvalidNorm` and `EpsOutOfRange`: the `ValueError`s of `set_params`;
- `ShapeMismatch`: the shape assertion of `_compute`;
- `IndexOutOfRange`: the `IndexError` of `y[active_indices]`;
- `DuplicateArgument`: the `TypeError` described under Findings.

Three facts about the code that the model reproduces:

- `set_params` stores the new values through the base class (line 117)
  before it runs the checks of lines 119-125. A rejected call therefore
  leaves the object holding the rejected configuration (`SetParams`).
- The L1 and L2 branches (lines 136-141) divide by the row's abs-sum or
  Euclidean norm with no guard. An all-zero gradient row gives 0/0 (for L2,
  given a correct square root), which the model reports as `NotFinite`.
- The loop guard `current_eps <= eps_max` (line 58) and the increment of
  line 66 allow at most floor(eps_max/eps_step) passes. There are exactly
  that many when every sample stays active (`MaxPassesIsFloor`,
  `PassesReached`).

## Model

| member | source | states |
|---|---|---|
| FastGradient.Validate | src/attacks/fast_gradient.py:119-127 | accepted exactly when the norm is np.inf, 1 or 2 and clip_min < eps <= clip_max; InvalidNorm exactly when the norm is another; EpsOutOfRange exactly when the norm is valid and eps <= clip_min or eps > clip_max |
| FastGradient.AcceptedRangeIsNonEmpty | src/attacks/fast_gradient.py:123-127 | an accepted configuration implies clip_min < clip_max |
| FastGradient.TargetFactor | src/attacks/fast_gradient.py:131 | the factor 1 - 2*int(targeted) is 1 or -1, and negative exactly when targeted |
| FastGradient.SignedIsNegation | src/attacks/fast_gradient.py:131 | the untargeted gradient is the loss gradient itself; the targeted one is its negation |
| FastGradient.Signed | src/attacks/fast_gradient.py:131 | multiplying by 1 - 2*int(targeted) keeps the gradient row's length |
| FastGradient.SignedKeepsMagnitudes | src/attacks/fast_gradient.py:131 | the signed gradient has the same absolute value as the loss gradient in every element |
| Norms.Direction | src/attacks/fast_gradient.py:133-141 | the projected row has the gradient's length; a norm order other than np.inf, 1 or 2 falls through every branch and leaves the gradient unchanged |
| Norms.SignDirection | src/attacks/fast_gradient.py:134-135 | the infinity-norm direction has every element in {-1, 0, 1}, is zero exactly where the gradient is zero, and times the gradient gives the gradient's absolute value |
| Norms.L1DefinedIffNonZero | src/attacks/fast_gradient.py:136-138 | the L1 division is by zero exactly for a non-empty all-zero gradient row |
| Norms.L1DirectionIsUnit | src/attacks/fast_gradient.py:136-138 | a non-zero gradient row divided by its abs-sum has absolute values summing to 1 |
| Norms.L2DirectionIsUnit | src/attacks/fast_gradient.py:139-141 | with a correct square root, a non-zero gradient row divided by its Euclidean norm has squares summing to 1 |
| Norms.DirectionOfNegated | src/attacks/fast_gradient.py:133-141 | for every norm order, negating the gradient keeps the projection defined and negates the direction |
| FastGradient.Step | src/attacks/fast_gradient.py:146 | eps * grad has the sample's length |
| FastGradient.LinfStepBounded | src/attacks/fast_gradient.py:134-146 | with the infinity norm the projection is always defined and eps * sign(grad) moves no element by more than abs(eps) |
| FastGradient.Perturbed | src/attacks/fast_gradient.py:146-147 | the moved and clipped sample keeps the sample's length |
| FastGradient.PerturbedInRange | src/attacks/fast_gradient.py:147 | with clip_min <= clip_max every clipped element lies in [clip_min, clip_max] |
| FastGradient.PerturbedMovesNoFurther | src/attacks/fast_gradient.py:146-147 | for an in-range sample, clipping moves no element further than the step itself |
| FastGradient.Compute | src/attacks/fast_gradient.py:129-149 | fails with ShapeMismatch exactly when the gradient's shape differs from x's; fails with NotFinite exactly when the shapes agree but some row's denominator is zero; fails in no other way; on success the result has x's shape |
| FastGradient.NoMixingAcrossSamples | src/attacks/fast_gradient.py:136-141 | two calls that agree on one input sample and on its gradient row agree on that output sample: denominators are per sample |
| FastGradient.ComputeInRange | src/attacks/fast_gradient.py:145-147 | with clip_min <= clip_max, every output element lies in [clip_min, clip_max] |
| FastGradient.ComputeWithinLinfBall | src/attacks/fast_gradient.py:134-147 | with the infinity norm, every element of an in-range input moves by at most abs(eps) |
| FastGradient.ComputeWithinL1Ball | src/attacks/fast_gradient.py:136-147 | with the L1 norm, every in-range input sample moves by at most abs(eps) in L1 norm |
| FastGradient.ComputeWithinL2Ball | src/attacks/fast_gradient.py:139-147 | with the L2 norm and a correct square root, every in-range input sample moves by at most abs(eps) in L2 norm (squared distance at most eps squared) |
| FastGradient.TargetedStepIsNegated | src/attacks/fast_gradient.py:131-141 | before clipping, the targeted step is exactly the negation of the untargeted step, and one is defined exactly when the other is |
| FastGradient.TargetedComputeIsNegated | src/attacks/fast_gradient.py:129-147 | the targeted and untargeted attacks succeed or fail together, and every sample's step of one is the negation of the other's |
| FastGradient.ComputeZeroEps | src/attacks/fast_gradient.py:145-147 | with eps = 0 the output is the clipped input, and an in-range input comes back unchanged |
| FastGradient.LinfExample | src/attacks/fast_gradient.py:129-149 | gradients [1,-1,0,2] and [0,0,0,0], infinity norm, eps 0.1: directions [1,-1,0,1] and zeros, outputs [0.6,0.4,0.5,0.6] and the unchanged second sample |
| FastGradient.NormaliseRows | src/attacks/fast_gradient.py:97 | fails with NotFinite exactly when some non-empty label row sums to zero; otherwise keeps the shape of y |
| FastGradient.NormalisedRow | src/attacks/fast_gradient.py:97 | a row divided by its non-zero sum sums to 1, and times that sum gives back the row |
| FastGradient.NormalisedRowsAreDistributions | src/attacks/fast_gradient.py:97 | every normalised non-empty row sums to 1 and is proportional to the original row |
| FastGradient.LabelSource | src/attacks/fast_gradient.py:92-96 | the given y when one is passed; classifier.predict(x) when y is missing or None |
| FastGradient.ResolveLabels | src/attacks/fast_gradient.py:92-97 | fails exactly when the chosen labels have a zero row sum; otherwise has their shape |
| FastGradient.ResolvedLabels | src/attacks/fast_gradient.py:92-97 | the resolved labels are row distributions proportional to the given y, or to the predictions when y is missing or None |
| MinimalSearch.Select | src/attacks/fast_gradient.py:60 | x[active_indices] has one row per active index, in order, each the row at that index |
| MinimalSearch.Filter | src/attacks/fast_gradient.py:65 | the new active set holds exactly the active indices the rule keeps, and is no larger |
| MinimalSearch.FilterIndexes | src/attacks/fast_gradient.py:65 | the new active set is still strictly increasing and in bounds |
| MinimalSearch.FilterKeepsAll | src/attacks/fast_gradient.py:65 | a rule that keeps every sample leaves the active set unchanged |
| MinimalSearch.ArgMax | src/attacks/fast_gradient.py:65 | np.argmax of a row: an index holding its largest value, with every earlier value strictly smaller |
| MinimalSearch.EpsAtPassIsMultiple | src/attacks/fast_gradient.py:56-66 | after k additions of eps_step starting from zero, current_eps is k * eps_step |
| MinimalSearch.MaxPassesIsFloor | src/attacks/fast_gradient.py:56-66 | with eps_step > 0 the pass count is floor(eps_max/eps_step): non-zero exactly when eps_step <= eps_max, its last pass within eps_max, one more pass beyond it |
| MinimalSearch.PassBound | src/attacks/fast_gradient.py:58-66 | with eps_step > 0, pass n runs only if n <= floor(eps_max / eps_step) |
| MinimalSearch.PassesReached | src/attacks/fast_gradient.py:58-66 | once pass n + 1 would exceed eps_max, n equals floor(eps_max / eps_step) |
| MinimalSearch.StepWithinMax | src/attacks/fast_gradient.py:56-66 | every pass the bound allows runs at an eps with 0 < eps <= eps_max |
| MinimalSearch.NoBoundWithoutPositiveStep | src/attacks/fast_gradient.py:56-66 | with eps_step <= 0 and eps_step <= eps_max, the loop's eps guard holds on every pass: no bound on the passes |
| MinimalSearch.StampWritesAll | src/attacks/fast_gradient.py:55-64 | the first pass, over all indices, writes every row, and later passes keep every row written |
| MinimalSearch.OverwriteRows | src/attacks/fast_gradient.py:64 | adv_x[active] = current_x writes row active[q] as current_x[q] and leaves every other row as it was |
| MinimalSearch.WrittenRowFrom | src/attacks/fast_gradient.py:60-64 | a row written by pass k at active position q is row q of _compute on the original rows at k * eps_step |
| MinimalSearch.PassKeepsRowsFrom | src/attacks/fast_gradient.py:60-64 | after a pass writes its rows, every row is either an original row of x or _compute of the original rows at some recorded pass |
| MinimalSearch.RunPass | src/attacks/fast_gradient.py:60-64 | aborts exactly when _compute(x[active], y[active], current_eps) fails, with that error and adv_x untouched; otherwise returns the predictions on adv_x as it stood before the update, writes row q of _compute's result at index active[q], leaves every other row as it was, and leaves every row accounted for as above |
| MinimalSearch.ExtendRan | src/attacks/fast_gradient.py:58-66 | a pass that predicts on adv_x as it stood, changes only its active rows, and starts from x over every index (first pass) or from the previous pass's batch over the indices kept after it, extends the recorded run |
| MinimalSearch.ExtendComputed | src/attacks/fast_gradient.py:60-64 | a pass that wrote _compute's rows at the next multiple of eps_step extends the record of passes that did |
| MinimalSearch.LatestAfterPass | src/attacks/fast_gradient.py:64-65 | after a pass, every written row is attributed to the last pass its index was active in |
| MinimalSearch.SearchStarts | src/attacks/fast_gradient.py:52-56 | before the first pass adv_x is x, every row is original, every index is active and current_eps is eps_step |
| MinimalSearch.SearchPass | src/attacks/fast_gradient.py:58-66 | an IndexError exactly when y has fewer rows than x on the first pass; any other stop is exactly _compute's failure on the active rows at current_eps, with adv_x untouched, and when the labels cover the active indices and _compute succeeds the pass continues; a continuing pass is recorded with the current active indices, the batch before and after the update and the predictions taken before it, wrote _compute's rows at current_eps, and the new active set is the filter of that pass's predictions; the loop's invariant then holds for the run extended by that pass |
| MinimalSearch.SearchLoop | src/attacks/fast_gradient.py:55-67 | the loop ends either with no index active or current_eps beyond eps_max, or with a stop while its guard held: the IndexError exactly when it runs and y has fewer rows than x, and otherwise _compute's error on the active rows at current_eps; either way in a state the recorded passes reached |
| MinimalSearch.MinimalPerturbation | src/attacks/fast_gradient.py:34-68 | at most floor(eps_max/eps_step) passes; IndexOutOfRange exactly when the loop runs and y has fewer rows than x; any other failure is _compute's error on the pass that follows a recorded run, with that pass due under the loop guard (`FailedAt`); on success a recorded run of passes: the first over every index on x, each later one over the indices `keep` accepted from the previous pass's predictions and on the batch that pass left, each predicting before its update and writing _compute's rows at k * eps_step <= eps_max to its active indices only; it stops only when no index is kept or the next eps exceeds eps_max; the result is the batch the last pass left, and every written row comes from the last pass its sample was active in; no passes exactly when x is empty or eps_step > eps_max; exactly floor(eps_max/eps_step) passes when every sample stays active; an in-range input gives an in-range result |
| MinimalSearch.ActiveNeverGrows | src/attacks/fast_gradient.py:65 | an index active in some pass was active in every earlier pass |
| MinimalSearch.DroppedSampleKeepsRow | src/attacks/fast_gradient.py:61-65 | an index that leaves the active set after a pass was rejected by the rule on that pass's predictions, and its row stays as that pass left it in every later batch |
| MinimalSearch.FailedAtComputeError | src/attacks/fast_gradient.py:60 | a failed pass fails with ShapeMismatch or NotFinite, the errors _compute can raise |
| MinimalSearch.RunsAgree | src/attacks/fast_gradient.py:55-66 | two recorded runs on the same inputs agree pass by pass: what each pass sees, predicts and writes is determined by x, y and the rule |
| MinimalSearch.WrittenRowInRange | src/attacks/fast_gradient.py:60-64 | a written row lies in the clip range |
| MinimalSearch.MinimalResultInRange | src/attacks/fast_gradient.py:52-68 | for an in-range input every row of the minimal-search result lies in the clip range |
| MinimalSearch.WrittenRowWithinLinfBall | src/attacks/fast_gradient.py:56-66 | with the infinity norm, a row written at pass k moves no element of an in-range input by more than k * eps_step, which is at most eps_max |
| MinimalSearch.WrittenRowWithinL1Ball | src/attacks/fast_gradient.py:56-66 | with the L1 norm, a row written at pass k moves an in-range sample by at most k * eps_step, at most eps_max, in L1 norm |
| Attack.BindMinimalCall | src/attacks/fast_gradient.py:101 | the call as written fails with DuplicateArgument exactly when the caller passed a y keyword; otherwise binds eps_step and eps_max with defaults 0.1 and 1.0 |
| Attack.GivenLabelsBreakMinimal | src/attacks/fast_gradient.py:101 | generate(x, y=labels, minimal=True), and also y=None with minimal=True, fails at that call |
| Attack.FixedBindingAgrees | src/attacks/fast_gradient.py:101 | the corrected binding ignores the y keyword and agrees with the written call whenever that succeeds |
| Attack.BindMinimalCallFixed | src/attacks/fast_gradient.py:101 | the corrected binding is what the written call binds once the y key is removed from the forwarded keywords |
| Attack.DroppedSampleWasMisclassified | src/attacks/fast_gradient.py:61-65 | under the intended rule of line 65 (`StillCorrect`: argmax of the label row equals argmax of the prediction row), a sample leaves the active set after pass k only when the predictions of pass k, taken on adv_x before pass k's update, do not give it its label's class; its final row is the one pass k wrote |
| Attack.RunMinimal | src/attacks/fast_gradient.py:101 | the minimal branch: IndexError exactly when the labels are short; any other error only as _compute's failure on the pass after a recorded run under the intended rule; otherwise that run, ended by the guard of line 58 (no sample left or the next eps beyond eps_max) and with no passes exactly for an empty batch or eps_step > eps_max, with the result the batch its last pass left and every row from x or _compute; an in-range input gives an in-range result |
| Attack.MinimalErrors | src/attacks/fast_gradient.py:60-101 | a failing minimal branch fails only with the IndexError or an error of _compute, never with one of set_params |
| Attack.FastGradientMethod.constructor | src/attacks/fast_gradient.py:16-29 | the object holds its classifier, as the base class's constructor stores it; its norm, eps and targeted are placeholders (np.inf, 0.3, False), since the source object has no such attributes until set_params runs, and `Create` overwrites all three at once |
| Attack.FastGradientMethod.SetParams | src/attacks/fast_gradient.py:105-127 | each given parameter is stored and the others kept, even when the checks then fail; the outcome is Validate on the stored configuration |
| Attack.Create | src/attacks/fast_gradient.py:16-32 | a fresh object storing the classifier, norm, eps and targeted, and the outcome of the set_params checks on them |
| Attack.FastGradientMethod.Generate | src/attacks/fast_gradient.py:70-103 | keywords stored; a set_params error returned as is; NotFinite when the labels have a zero row sum; without minimal, exactly _compute at the stored eps on the resolved labels; with minimal, the outcome of RunMinimal on the resolved labels with the intended rule of line 65: the IndexError, _compute's failure on the due pass, or the run ended by the guard of line 58; a result for an in-range input lies in the clip range |

## Left out

- Floating point: the model computes in exact reals. The rounding of `current_eps += eps_step` (line 66) and of the divisions is not modelled.
- NaN and infinity: a division by zero in the L1 or L2 branch, or a zero label-row sum, ends the call with `NotFinite`. numpy would carry NaN or infinite rows on instead.
- L2 norm: `np.sqrt` is a function parameter `sqrt`. The unit-norm and L2-ball lemmas assume `IsRoot`, that it is a correct square root of the sums they use.
- Shapes: a sample is flattened to one sequence. The shape assertion of line 142 is the per-row length check `SameShape`. The reductions over all non-batch axes are sums over the flattened sample.
- MinimalSearch.MinimalPerturbation: the active-set update of line 65 is a parameter `keep`, and `Generate` supplies the evidently intended rule `StillCorrect`: a sample stays active while the argmax of its label row equals the argmax of its prediction row. The numpy expression as written is not modelled: the tuple from `np.where` never has length 0, its positions are relative to the current subset, and it compares `y[active_indices]` with predictions for the whole batch. The predictions are taken before `adv_x` is updated, as in the source.
- MinimalSearch.MinimalPerturbation: requires `Terminates`, that `eps_step > 0` or the loop is never entered. With `eps_step <= 0`, `eps_step <= eps_max` and a non-empty batch the eps guard of line 58 never fails, so the search has no bound on its passes (`NoBoundWithoutPositiveStep`). The requires also excludes the runs of that kind that would still end: by the IndexError of line 60, by a failure of `_compute`, or by an emptied active set. `Generate` carries the same precondition when `minimal` is set and the call gets as far as the search, that is, set_params accepts the stored configuration and the labels have no zero row sum; a call that fails before the search is not excluded.
- Attack.FastGradientMethod.Generate: uses the corrected call of line 101 (see Findings). The call as written is `Attack.BindMinimalCall`.
- The base class `Attack` in `src/attacks/attack.py` is not part of this model. Its `set_params` is taken to store the attack parameters `norm`, `eps` and `targeted` and ignore other keywords, and its constructor to store the classifier.
- Python equality inside `self.norm not in [np.inf, 1, 2]`, such as `True == 1`, is not modelled. A norm is np.inf or a number.
- The classifier's `predict`, `loss_gradient` and `clip_values` are external. Their exceptions are not modelled.
- `src/attacks/virtual_adversarial.py` is not part of this model. It rests on random directions, scipy's entropy and floating-point tolerances.

## Findings

| source | as written | input that shows it | evidently intended | confidence | as-written member | corrected member |
|---|---|---|---|---|---|---|
| src/attacks/fast_gradient.py:101 | `self._minimal_perturbation(x, y, **kwargs)` passes the normalised labels by position while `kwargs` still holds the caller's `y` key, so Python raises TypeError (multiple values for argument 'y') | `generate(x, y=labels, minimal=True)`, and also `generate(x, y=None, minimal=True)` | the normalised labels are passed once and the `y` key is dropped from the forwarded keywords, so explicit labels work in minimal mode | high, not executed | Attack.BindMinimalCall, Attack.GivenLabelsBreakMinimal | Attack.BindMinimalCallFixed, Attack.FixedBindingAgrees |
