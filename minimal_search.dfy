/**
  FastGradientMethod._minimal_perturbation (src/attacks/fast_gradient.py:34-68):
  grow the step from eps_step by eps_step up to eps_max and, on every pass,
  recompute from the original inputs the samples that are still active,
  overwriting their rows of the adversarial batch in place.

  The choice of the next active set (line 65) is a parameter `keep`: the
  numpy expression there does not compute what its comment intends (it
  returns a tuple, positions relative to the current subset, compared with
  predictions for the whole batch), so the model takes any rule that keeps a
  subset; the attack supplies StillCorrect, the intended rule.
 */
module MinimalSearch {
  import opened Tensors
  import opened Norms
  import opened FastGradient

  /** Strictly increasing indices below n, as np.arange(n) and every subset np.where picks from it. */
  predicate Indexes(act: seq<nat>, n: nat)
  {
    (forall p :: 0 <= p < |act| ==> act[p] < n) &&
    (forall p, q :: 0 <= p < q < |act| ==> act[p] < act[q])
  }

  /** np.arange(n) */
  function Range(n: nat): seq<nat>
  {
    seq(n, p requires 0 <= p < n => p)
  }

  /** b[act]: the rows of b at the given indices, in order. */
  function Select(b: Batch, act: seq<nat>): (s: Batch)
    requires forall p :: 0 <= p < |act| ==> act[p] < |b|
    ensures |s| == |act|
    ensures forall p :: 0 <= p < |act| ==> s[p] == b[act[p]]
  {
    seq(|act|, p requires 0 <= p < |act| => b[act[p]])
  }

  /** The indices of act that `keep` accepts for these predictions, in their order. */
  function Filter(act: seq<nat>, preds: Batch, keep: (Batch, nat) -> bool): (s: seq<nat>)
    ensures |s| <= |act|
    ensures forall i :: i in s <==> i in act && keep(preds, i)
  {
    if act == [] then []
    else
      var rest := Filter(act[1..], preds, keep);
      if keep(preds, act[0]) then [act[0]] + rest else rest
  }

  /** The active set only shrinks, and stays a strictly increasing set of valid indices. */
  lemma {:induction false} FilterIndexes(act: seq<nat>, preds: Batch, keep: (Batch, nat) -> bool, n: nat)
    requires Indexes(act, n)
    ensures Indexes(Filter(act, preds, keep), n)
  {
    if act != [] {
      assert Indexes(act[1..], n);
      FilterIndexes(act[1..], preds, keep, n);
      var rest := Filter(act[1..], preds, keep);
      forall q | 0 <= q < |rest|
        ensures act[0] < rest[q]
      {
        assert rest[q] in act[1..];
      }
    }
  }

  /** A rule that keeps every sample keeps the active set as it is. */
  lemma {:induction false} FilterKeepsAll(act: seq<nat>, preds: Batch, keep: (Batch, nat) -> bool)
    requires forall i :: keep(preds, i)
    ensures Filter(act, preds, keep) == act
  {
    if act != [] {
      FilterKeepsAll(act[1..], preds, keep);
    }
  }

  /** np.argmax of a non-empty row: the first position holding its largest element. */
  function ArgMax(s: Sample): (k: nat)
    requires s != []
    ensures k < |s|
    ensures forall j :: 0 <= j < |s| ==> s[j] <= s[k]
    ensures forall j :: 0 <= j < k ==> s[j] < s[k]
  {
    if |s| == 1 then 0
    else
      var k := ArgMax(s[1..]);
      if s[0] >= s[1..][k] then 0 else k + 1
  }

  /** The intended rule of line 65: sample i is still classified as its label says. */
  predicate StillCorrect(y: Batch, preds: Batch, i: nat)
  {
    i < |y| && i < |preds| && y[i] != [] && preds[i] != [] && ArgMax(y[i]) == ArgMax(preds[i])
  }

  /**
    The number of passes the eps bound allows: floor(eps_max / eps_step) for a
    positive step, none when the first step already exceeds eps_max.
   */
  function MaxPasses(epsStep: real, epsMax: real): nat
  {
    if epsStep > 0.0 && epsStep <= epsMax then
      var q := epsMax / epsStep;
      QuotientIsExact(epsMax, epsStep, q);
      DivideOut(1.0, q, epsStep);
      q.Floor
    else 0
  }

  lemma QuotientIsExact(m: real, e: real, q: real)
    requires e > 0.0 && q == m / e
    ensures q * e == m
  {
  }

  lemma DivideOut(a: real, b: real, e: real)
    requires e > 0.0
    ensures a * e <= b * e <==> a <= b
    ensures a * e < b * e <==> a < b
  {
    assert (b - a) * e == b * e - a * e;
    if a < b {
      assert (b - a) * e > 0.0;
    } else if a == b {
    } else {
      assert (a - b) * e > 0.0;
    }
  }

  /** current_eps after k passes of current_eps += eps_step. */
  function EpsAtPass(k: nat, epsStep: real): real
  {
    if k == 0 then 0.0 else EpsAtPass(k - 1, epsStep) + epsStep
  }

  lemma {:induction false} EpsAtPassIsMultiple(k: nat, e: real)
    ensures EpsAtPass(k, e) == (k as real) * e
  {
    if k > 0 {
      EpsAtPassIsMultiple(k - 1, e);
      assert (k as real) * e == ((k - 1) as real) * e + e;
    }
  }

  /**
    MaxPasses is floor(eps_max / eps_step): with a positive step it is non-zero
    exactly when eps_step <= eps_max, the eps of its last pass is within
    eps_max, and the eps of one more pass is beyond it.
   */
  lemma MaxPassesIsFloor(e: real, m: real)
    requires e > 0.0
    ensures MaxPasses(e, m) > 0 <==> e <= m
    ensures MaxPasses(e, m) > 0 ==> EpsAtPass(MaxPasses(e, m), e) <= m
    ensures m < EpsAtPass(MaxPasses(e, m) + 1, e)
  {
    var n := MaxPasses(e, m);
    EpsAtPassIsMultiple(n, e);
    EpsAtPassIsMultiple(n + 1, e);
    if e <= m {
      var q := m / e;
      QuotientIsExact(m, e, q);
      DivideOut(1.0, q, e);
      assert (n as real) <= q < (n + 1) as real;
      DivideOut(n as real, q, e);
      DivideOut(q, (n + 1) as real, e);
      assert m < ((n + 1) as real) * e;
    }
    assert EpsAtPass(n + 1, e) == ((n + 1) as real) * e;
  }

  /** Pass n runs under eps_max only if n is at most MaxPasses. */
  lemma PassBound(n: nat, e: real, m: real)
    requires e > 0.0 && EpsAtPass(n, e) <= m
    ensures n <= MaxPasses(e, m)
  {
    EpsAtPassIsMultiple(n, e);
    if n > 0 {
      DivideOut(1.0, n as real, e);
      var q := m / e;
      QuotientIsExact(m, e, q);
      DivideOut(n as real, q, e);
    }
  }

  /** Once pass n + 1 would exceed eps_max, n passes are all the eps bound allows. */
  lemma PassesReached(n: nat, e: real, m: real)
    requires e > 0.0 && EpsAtPass(n + 1, e) > m && n <= MaxPasses(e, m)
    ensures n == MaxPasses(e, m)
  {
    EpsAtPassIsMultiple(n + 1, e);
    if e <= m {
      var q := m / e;
      QuotientIsExact(m, e, q);
      DivideOut(q, (n + 1) as real, e);
      assert m < ((n + 1) as real) * e;
    }
    assert EpsAtPass(n + 1, e) == ((n + 1) as real) * e;
  }

  /** Every pass the bound allows runs with a positive eps no larger than eps_max. */
  lemma StepWithinMax(k: nat, e: real, m: real)
    requires e > 0.0 && 1 <= k <= MaxPasses(e, m)
    ensures 0.0 < EpsAtPass(k, e) <= m
  {
    EpsAtPassIsMultiple(k, e);
    var q := m / e;
    QuotientIsExact(m, e, q);
    DivideOut(k as real, q, e);
    DivideOut(0.0, k as real, e);
  }

  /** With a step that is not positive, once the eps guard of the loop holds it holds on every later pass: no bound on the passes. */
  lemma {:induction false} NoBoundWithoutPositiveStep(e: real, m: real, n: nat)
    requires e <= 0.0 && e <= m
    ensures EpsAtPass(n + 1, e) <= m
  {
    if n > 0 {
      NoBoundWithoutPositiveStep(e, m, n - 1);
    }
  }

  /** Where a row of the result comes from: the input row itself, or row pos of _compute on the rows act at eps = pass * eps_step. */
  datatype Origin = Original | Written(pass: nat, act: seq<nat>, pos: nat)

  predicate RowFrom(c: Classifier, norm: NormOrder, targeted: bool, sqrt: real -> real,
                    x: Batch, y: Batch, epsStep: real, row: Sample, i: nat, o: Origin)
    requires i < |x|
  {
    match o
    case Original => row == x[i]
    case Written(k, act, p) =>
      1 <= k && p < |act| && act[p] == i && Indexes(act, |x|) && Indexes(act, |y|) &&
      var b := Compute(c, norm, targeted, sqrt, Select(x, act), Select(y, act), EpsAtPass(k, epsStep));
      b.Success? && row == b.value[p]
  }

  /** Every row of rows comes from where origins says, at a pass no later than passes. */
  predicate AllRowsFrom(c: Classifier, norm: NormOrder, targeted: bool, sqrt: real -> real,
                        x: Batch, y: Batch, epsStep: real, rows: Batch, origins: seq<Origin>, passes: nat)
  {
    |rows| == |x| && |origins| == |x| &&
    forall i :: 0 <= i < |x| ==>
      RowFrom(c, norm, targeted, sqrt, x, y, epsStep, rows[i], i, origins[i]) &&
      (origins[i].Written? ==> origins[i].pass <= passes)
  }

  /** The position of i in act. */
  function IndexOf(act: seq<nat>, i: nat): (p: nat)
    requires i in act
    ensures p < |act| && act[p] == i
  {
    if act[0] == i then 0 else 1 + IndexOf(act[1..], i)
  }

  /** The origins after pass k has written the rows act. */
  ghost function Stamp(origins: seq<Origin>, act: seq<nat>, k: nat): (s: seq<Origin>)
    ensures |s| == |origins|
    ensures forall i :: 0 <= i < |origins| ==> (s[i].Written? <==> i in act || origins[i].Written?)
  {
    seq(|origins|, i requires 0 <= i < |origins| => if i in act then Written(k, act, IndexOf(act, i)) else origins[i])
  }

  /** Every row has been written by some pass. */
  predicate AllWritten(origins: seq<Origin>)
  {
    forall i :: 0 <= i < |origins| ==> origins[i].Written?
  }

  /** The first pass, over every index, writes every row; later passes keep every row written. */
  lemma StampWritesAll(origins: seq<Origin>, act: seq<nat>, k: nat, first: bool)
    requires first ==> act == Range(|origins|)
    requires !first ==> AllWritten(origins)
    ensures AllWritten(Stamp(origins, act, k))
  {
    var s := Stamp(origins, act, k);
    forall i | 0 <= i < |origins|
      ensures s[i].Written?
    {
      if first {
        assert act[i] == i;
        assert i in act;
      }
    }
  }

  /** adv_x[act] = rows: row act[q] becomes rows[q], and every other row stays. */
  method OverwriteRows(adv: array<Sample>, act: seq<nat>, rows: Batch)
    requires |rows| == |act| && Indexes(act, adv.Length)
    modifies adv
    ensures forall q :: 0 <= q < |act| ==> adv[act[q]] == rows[q]
    ensures forall i :: 0 <= i < adv.Length && i !in act ==> adv[i] == old(adv[i])
  {
    var p := 0;
    while p < |act|
      invariant 0 <= p <= |act|
      invariant forall q :: 0 <= q < p ==> adv[act[q]] == rows[q]
      invariant forall i :: 0 <= i < adv.Length && i !in act[..p] ==> adv[i] == old(adv[i])
    {
      adv[act[p]] := rows[p];
      p := p + 1;
    }
    assert act[..p] == act;
  }

  /** A pass that writes _compute's rows at the active indices keeps every row accounted for. */
  lemma PassKeepsRowsFrom(c: Classifier, norm: NormOrder, targeted: bool, sqrt: real -> real,
                          x: Batch, y: Batch, epsStep: real, adv0: Batch, origins0: seq<Origin>, passes: nat,
                          act: seq<nat>, rows: Batch, adv1: Batch)
    requires AllRowsFrom(c, norm, targeted, sqrt, x, y, epsStep, adv0, origins0, passes)
    requires Indexes(act, |x|) && Indexes(act, |y|)
    requires Compute(c, norm, targeted, sqrt, Select(x, act), Select(y, act), EpsAtPass(passes + 1, epsStep)) == Success(rows)
    requires |adv1| == |x| && |rows| == |act|
    requires forall q :: 0 <= q < |act| ==> adv1[act[q]] == rows[q]
    requires forall i :: 0 <= i < |x| && i !in act ==> adv1[i] == adv0[i]
    ensures AllRowsFrom(c, norm, targeted, sqrt, x, y, epsStep, adv1, Stamp(origins0, act, passes + 1), passes + 1)
  {
    var s := Stamp(origins0, act, passes + 1);
    forall i | 0 <= i < |x|
      ensures RowFrom(c, norm, targeted, sqrt, x, y, epsStep, adv1[i], i, s[i])
    {
      if i in act {
        var q := IndexOf(act, i);
        assert s[i] == Written(passes + 1, act, q);
        WrittenRowFrom(c, norm, targeted, sqrt, x, y, epsStep, passes + 1, act, rows, q);
      } else {
        assert s[i] == origins0[i] && adv1[i] == adv0[i];
      }
    }
  }

  lemma WrittenRowFrom(c: Classifier, norm: NormOrder, targeted: bool, sqrt: real -> real,
                       x: Batch, y: Batch, epsStep: real, k: nat, act: seq<nat>, rows: Batch, q: nat)
    requires Indexes(act, |x|) && Indexes(act, |y|) && 1 <= k && q < |act| && |rows| == |act|
    requires Compute(c, norm, targeted, sqrt, Select(x, act), Select(y, act), EpsAtPass(k, epsStep)) == Success(rows)
    ensures RowFrom(c, norm, targeted, sqrt, x, y, epsStep, rows[q], act[q], Written(k, act, q))
  {
    var b := Compute(c, norm, targeted, sqrt, Select(x, act), Select(y, act), EpsAtPass(k, epsStep));
    assert b.Success? && rows[q] == b.value[q];
  }

  /** `after` differs from `before` at most at the indices act. */
  predicate Framed(x: Batch, act: seq<nat>, before: Batch, after: Batch)
  {
    Indexes(act, |x|) && |before| == |x| && |after| == |x| &&
    forall i :: 0 <= i < |x| && i !in act ==> after[i] == before[i]
  }

  /**
    adv_x[act] = current_x with current_x = _compute(x[act], y[act], eps):
    `after` holds row q of that result at index act[q], and `before`'s row at
    every index that is not active.
   */
  predicate Wrote(c: Classifier, norm: NormOrder, targeted: bool, sqrt: real -> real,
                  x: Batch, y: Batch, eps: real, act: seq<nat>, before: Batch, after: Batch)
  {
    Framed(x, act, before, after) && Indexes(act, |y|) &&
    var b := Compute(c, norm, targeted, sqrt, Select(x, act), Select(y, act), eps);
    b.Success? && forall q :: 0 <= q < |act| ==> after[act[q]] == b.value[q]
  }

  /** One pass as it ran: its active indices, adv_x before and after its update, and the predictions on adv_x before it. */
  datatype Pass = Pass(active: seq<nat>, before: Batch, preds: Batch, after: Batch)

  /**
    Pass k (counting from 1) passed the loop guard (an active index left,
    current_eps = k * eps_step within eps_max), predicted on adv_x as it
    stood, and changed the active rows only.
   */
  predicate PassRan(c: Classifier, x: Batch, epsStep: real, epsMax: real, k: nat, p: Pass)
  {
    p.active != [] && EpsAtPass(k, epsStep) <= epsMax && p.preds == c.predict(p.before) &&
    Framed(x, p.active, p.before, p.after)
  }

  /** The active indices after pass p: those of p's that `keep` accepts for p's predictions. */
  function NextActive(p: Pass, keep: (Batch, nat) -> bool): seq<nat>
  {
    Filter(p.active, p.preds, keep)
  }

  /**
    The passes of one run of the loop, in order: the first over every index
    and on x itself, each later one over the indices kept after the pass
    before it and on the batch that pass left.
   */
  predicate Ran(c: Classifier, x: Batch, epsStep: real, epsMax: real, keep: (Batch, nat) -> bool, trace: seq<Pass>)
  {
    (forall k :: 0 <= k < |trace| ==> PassRan(c, x, epsStep, epsMax, k + 1, trace[k])) &&
    (|trace| > 0 ==> trace[0].active == Range(|x|) && trace[0].before == x) &&
    (forall k :: 0 < k < |trace| ==>
      trace[k].before == trace[k - 1].after && trace[k].active == NextActive(trace[k - 1], keep))
  }

  /** Pass k of the trace wrote row q of _compute(x[active], y[active], k * eps_step) at its q-th active index. */
  predicate Computed(c: Classifier, norm: NormOrder, targeted: bool, sqrt: real -> real,
                     x: Batch, y: Batch, epsStep: real, trace: seq<Pass>)
  {
    forall k :: 0 <= k < |trace| ==>
      Wrote(c, norm, targeted, sqrt, x, y, EpsAtPass(k + 1, epsStep), trace[k].active, trace[k].before, trace[k].after)
  }

  /** The active indices of the pass after `trace`: every index for the first pass, otherwise those kept after the last one. */
  function ActiveAfter(x: Batch, keep: (Batch, nat) -> bool, trace: seq<Pass>): seq<nat>
  {
    if |trace| == 0 then Range(|x|) else NextActive(trace[|trace| - 1], keep)
  }

  /**
    The pass after `trace` was due (an active index left and its eps within
    eps_max), the labels cover its indices, and _compute failed on its rows
    with e.
   */
  ghost predicate FailedAt(c: Classifier, norm: NormOrder, targeted: bool, sqrt: real -> real,
                           x: Batch, y: Batch, epsStep: real, epsMax: real, keep: (Batch, nat) -> bool,
                           trace: seq<Pass>, e: Error)
  {
    var act := ActiveAfter(x, keep, trace);
    act != [] && EpsAtPass(|trace| + 1, epsStep) <= epsMax && Indexes(act, |x|) && Indexes(act, |y|) &&
    Compute(c, norm, targeted, sqrt, Select(x, act), Select(y, act), EpsAtPass(|trace| + 1, epsStep)) == Failure(e)
  }

  /** A failed pass fails with one of _compute's errors. */
  lemma FailedAtComputeError(c: Classifier, norm: NormOrder, targeted: bool, sqrt: real -> real,
                             x: Batch, y: Batch, epsStep: real, epsMax: real, keep: (Batch, nat) -> bool,
                             trace: seq<Pass>, e: Error)
    requires FailedAt(c, norm, targeted, sqrt, x, y, epsStep, epsMax, keep, trace, e)
    ensures e == ShapeMismatch || e == NotFinite
  {
  }

  /**
    Two recorded runs over the same inputs agree pass by pass: the passes,
    and so what the search returns, are determined by x, y and the rule.
   */
  lemma {:induction false} RunsAgree(c: Classifier, norm: NormOrder, targeted: bool, sqrt: real -> real,
                                     x: Batch, y: Batch, epsStep: real, epsMax: real, keep: (Batch, nat) -> bool,
                                     t1: seq<Pass>, t2: seq<Pass>, k: nat)
    requires Ran(c, x, epsStep, epsMax, keep, t1) && Computed(c, norm, targeted, sqrt, x, y, epsStep, t1)
    requires Ran(c, x, epsStep, epsMax, keep, t2) && Computed(c, norm, targeted, sqrt, x, y, epsStep, t2)
    requires k < |t1| && k < |t2|
    ensures t1[k] == t2[k]
  {
    if k > 0 {
      RunsAgree(c, norm, targeted, sqrt, x, y, epsStep, epsMax, keep, t1, t2, k - 1);
    }
    var p1, p2 := t1[k], t2[k];
    assert p1.active == p2.active && p1.before == p2.before;
    assert PassRan(c, x, epsStep, epsMax, k + 1, p1) && PassRan(c, x, epsStep, epsMax, k + 1, p2);
    var eps := EpsAtPass(k + 1, epsStep);
    assert Wrote(c, norm, targeted, sqrt, x, y, eps, p1.active, p1.before, p1.after);
    assert Wrote(c, norm, targeted, sqrt, x, y, eps, p2.active, p2.before, p2.after);
    forall i | 0 <= i < |x|
      ensures p1.after[i] == p2.after[i]
    {
      if i in p1.active {
        var q :| 0 <= q < |p1.active| && p1.active[q] == i;
      }
    }
    assert p1.after == p2.after;
  }

  /** Every written row was written by the last pass its index was active in. */
  predicate Latest(origins: seq<Origin>, trace: seq<Pass>)
  {
    forall i :: 0 <= i < |origins| && origins[i].Written? ==>
      1 <= origins[i].pass <= |trace| && origins[i].act == trace[origins[i].pass - 1].active &&
      (origins[i].pass < |trace| ==> i !in trace[origins[i].pass].active)
  }

  /** A pass that follows the trace extends it. */
  lemma ExtendRan(c: Classifier, x: Batch, epsStep: real, epsMax: real, keep: (Batch, nat) -> bool, trace: seq<Pass>, p: Pass)
    requires Ran(c, x, epsStep, epsMax, keep, trace)
    requires PassRan(c, x, epsStep, epsMax, |trace| + 1, p)
    requires |trace| == 0 ==> p.active == Range(|x|) && p.before == x
    requires |trace| > 0 ==> p.before == trace[|trace| - 1].after && p.active == NextActive(trace[|trace| - 1], keep)
    ensures Ran(c, x, epsStep, epsMax, keep, trace + [p])
  {
    var t := trace + [p];
    forall k | 0 <= k < |t|
      ensures PassRan(c, x, epsStep, epsMax, k + 1, t[k])
    {
      if k < |trace| {
        assert t[k] == trace[k];
      }
    }
    forall k | 0 < k < |t|
      ensures t[k].before == t[k - 1].after && t[k].active == NextActive(t[k - 1], keep)
    {
      assert t[k - 1] == if k - 1 < |trace| then trace[k - 1] else p;
    }
  }

  /** A pass that wrote _compute's rows at the next eps extends a trace of such passes. */
  lemma ExtendComputed(c: Classifier, norm: NormOrder, targeted: bool, sqrt: real -> real,
                       x: Batch, y: Batch, epsStep: real, trace: seq<Pass>, p: Pass)
    requires Computed(c, norm, targeted, sqrt, x, y, epsStep, trace)
    requires Wrote(c, norm, targeted, sqrt, x, y, EpsAtPass(|trace| + 1, epsStep), p.active, p.before, p.after)
    ensures Computed(c, norm, targeted, sqrt, x, y, epsStep, trace + [p])
  {
    var t := trace + [p];
    forall k | 0 <= k < |t|
      ensures Wrote(c, norm, targeted, sqrt, x, y, EpsAtPass(k + 1, epsStep), t[k].active, t[k].before, t[k].after)
    {
      if k < |trace| {
        assert t[k] == trace[k];
      }
    }
  }

  /** Stamping the rows of a new pass keeps every written row attributed to the last pass its index was active in. */
  lemma LatestAfterPass(origins: seq<Origin>, trace: seq<Pass>, p: Pass)
    requires Latest(origins, trace)
    ensures Latest(Stamp(origins, p.active, |trace| + 1), trace + [p])
  {
    var s := Stamp(origins, p.active, |trace| + 1);
    var t := trace + [p];
    forall i | 0 <= i < |s| && s[i].Written?
      ensures 1 <= s[i].pass <= |t| && s[i].act == t[s[i].pass - 1].active
      ensures s[i].pass < |t| ==> i !in t[s[i].pass].active
    {
      if i in p.active {
        assert s[i] == Written(|trace| + 1, p.active, IndexOf(p.active, i));
      } else {
        assert s[i] == origins[i];
        assert t[s[i].pass - 1] == trace[s[i].pass - 1];
        if s[i].pass < |trace| {
          assert t[s[i].pass] == trace[s[i].pass];
        }
      }
    }
  }

  /** One pass either aborts with _compute's error or yields the predictions taken before the rows were written. */
  datatype PassOutcome = Done(preds: Batch) | Aborted(error: Error)

  /**
    One pass of the loop body: _compute on the active rows at current_eps, the
    predictions on the adversarial batch as it stands, then adv_x[active] =
    current_x.
   */
  method RunPass(c: Classifier, norm: NormOrder, targeted: bool, sqrt: real -> real,
                 x: Batch, y: Batch, epsStep: real, adv: array<Sample>, active: seq<nat>, currentEps: real,
                 ghost origins: seq<Origin>, ghost passes: nat)
      returns (o: PassOutcome, ghost origins1: seq<Origin>)
    requires adv.Length == |x| && Indexes(active, |x|) && Indexes(active, |y|)
    requires currentEps == EpsAtPass(passes + 1, epsStep)
    requires AllRowsFrom(c, norm, targeted, sqrt, x, y, epsStep, adv[..], origins, passes)
    modifies adv
    ensures o.Aborted? ==> o.error == ShapeMismatch || o.error == NotFinite
    ensures o.Aborted? <==> Compute(c, norm, targeted, sqrt, Select(x, active), Select(y, active), currentEps).Failure?
    ensures o.Aborted? ==>
      Compute(c, norm, targeted, sqrt, Select(x, active), Select(y, active), currentEps) == Failure(o.error) &&
      adv[..] == old(adv[..])
    ensures o.Done? ==> o.preds == c.predict(old(adv[..]))
    ensures o.Done? ==> Wrote(c, norm, targeted, sqrt, x, y, currentEps, active, old(adv[..]), adv[..])
    ensures o.Done? ==> origins1 == Stamp(origins, active, passes + 1)
    ensures o.Done? ==> AllRowsFrom(c, norm, targeted, sqrt, x, y, epsStep, adv[..], origins1, passes + 1)
  {
    var cur := Compute(c, norm, targeted, sqrt, Select(x, active), Select(y, active), currentEps);
    if cur.Failure? {
      return Aborted(cur.error), origins;
    }
    var preds := c.predict(adv[..]);
    ghost var adv0 := adv[..];
    OverwriteRows(adv, active, cur.value);
    origins1 := Stamp(origins, active, passes + 1);
    PassKeepsRowsFrom(c, norm, targeted, sqrt, x, y, epsStep, adv0, origins, passes, active, cur.value, adv[..]);
    return Done(preds), origins1;
  }

  /** The source runs forever for a non-positive eps_step unless the loop is never entered. */
  predicate Terminates(epsStep: real, epsMax: real, n: nat)
  {
    epsStep > 0.0 || epsMax < epsStep || n == 0
  }

  /**
    The state of the search loop between passes: adv_x as rows, the active
    indices and current_eps after `passes` passes, which ran as `trace` says.
   */
  ghost predicate Searching(c: Classifier, norm: NormOrder, targeted: bool, sqrt: real -> real,
                            x: Batch, y: Batch, epsStep: real, epsMax: real, keep: (Batch, nat) -> bool,
                            rows: Batch, origins: seq<Origin>, active: seq<nat>, currentEps: real, passes: nat,
                            trace: seq<Pass>)
  {
    Indexes(active, |x|) &&
    currentEps == EpsAtPass(passes + 1, epsStep) &&
    passes <= MaxPasses(epsStep, epsMax) &&
    (epsStep <= 0.0 ==> passes == 0) &&
    (passes == 0 ==> active == Range(|x|) && rows == x) &&
    (passes > 0 ==> |x| > 0 && epsStep <= epsMax && |x| <= |y| && AllWritten(origins)) &&
    AllRowsFrom(c, norm, targeted, sqrt, x, y, epsStep, rows, origins, passes) &&
    ((forall b, i :: keep(b, i)) ==> active == Range(|x|)) &&
    |trace| == passes && Ran(c, x, epsStep, epsMax, keep, trace) &&
    Computed(c, norm, targeted, sqrt, x, y, epsStep, trace) &&
    (passes > 0 ==> rows == trace[passes - 1].after && active == NextActive(trace[passes - 1], keep)) &&
    Latest(origins, trace)
  }

  /** The outcome of one pass of the search: the next active indices, or the error that ends the call. */
  datatype SearchOutcome = Continue(active: seq<nat>) | Stop(error: Error)

  /**
    One iteration of the while loop: the label lookup y[active] (which fails
    when y has fewer rows than x), _compute at current_eps, the predictions
    on adv_x before the update, adv_x[active] = current_x, and the new
    active indices.
   */
  method SearchPass(c: Classifier, norm: NormOrder, targeted: bool, sqrt: real -> real,
                    x: Batch, y: Batch, epsStep: real, epsMax: real, keep: (Batch, nat) -> bool,
                    adv: array<Sample>, active: seq<nat>, currentEps: real,
                    ghost origins: seq<Origin>, ghost passes: nat, ghost trace: seq<Pass>)
      returns (s: SearchOutcome, ghost origins1: seq<Origin>, ghost p: Pass)
    requires Terminates(epsStep, epsMax, |x|)
    requires adv.Length == |x|
    requires Searching(c, norm, targeted, sqrt, x, y, epsStep, epsMax, keep, adv[..], origins, active, currentEps, passes, trace)
    requires |active| != 0 && currentEps <= epsMax
    modifies adv
    ensures s.Stop? ==> s.error == IndexOutOfRange || s.error == ShapeMismatch || s.error == NotFinite
    ensures s.Stop? ==> (s.error == IndexOutOfRange <==> passes == 0 && |y| < |x|)
    ensures passes == 0 && |y| < |x| ==> s.Stop?
    ensures s.Stop? ==> adv[..] == old(adv[..])
    ensures s.Stop? && s.error != IndexOutOfRange ==>
      Indexes(active, |y|) &&
      Compute(c, norm, targeted, sqrt, Select(x, active), Select(y, active), currentEps) == Failure(s.error)
    ensures Indexes(active, |y|) && Compute(c, norm, targeted, sqrt, Select(x, active), Select(y, active), currentEps).Success? ==>
      s.Continue?
    ensures s.Continue? ==> p.active == active && p.before == old(adv[..]) && p.after == adv[..]
    ensures s.Continue? ==> PassRan(c, x, epsStep, epsMax, passes + 1, p)
    ensures s.Continue? ==> Wrote(c, norm, targeted, sqrt, x, y, currentEps, p.active, p.before, p.after)
    ensures s.Continue? ==> s.active == NextActive(p, keep) && origins1 == Stamp(origins, active, passes + 1)
    ensures s.Continue? ==>
      Searching(c, norm, targeted, sqrt, x, y, epsStep, epsMax, keep, adv[..], origins1, s.active, currentEps + epsStep, passes + 1,
                trace + [p])
  {
    p := Pass(active, adv[..], [], adv[..]);
    assert epsStep > 0.0;
    PassBound(passes + 1, epsStep, epsMax);
    if exists q :: 0 <= q < |active| && active[q] >= |y| {
      return Stop(IndexOutOfRange), origins, p;
    }
    assert passes == 0 ==> active[|x| - 1] < |y|;
    ghost var before := adv[..];
    var outcome;
    outcome, origins1 := RunPass(c, norm, targeted, sqrt, x, y, epsStep, adv, active, currentEps, origins, passes);
    if outcome.Aborted? {
      return Stop(outcome.error), origins, p;
    }
    var preds := outcome.preds;
    p := Pass(active, before, preds, adv[..]);
    StampWritesAll(origins, active, passes + 1, passes == 0);
    FilterIndexes(active, preds, keep, |x|);
    if forall b, i :: keep(b, i) {
      FilterKeepsAll(active, preds, keep);
    }
    ExtendRan(c, x, epsStep, epsMax, keep, trace, p);
    ExtendComputed(c, norm, targeted, sqrt, x, y, epsStep, trace, p);
    LatestAfterPass(origins, trace, p);
    assert EpsAtPass(passes + 2, epsStep) == currentEps + epsStep;
    return Continue(Filter(active, preds, keep)), origins1, p;
  }

  /**
    _minimal_perturbation(x, y, eps_step, eps_max). The passes run as `trace`
    records: the first over every sample, each later one over the samples
    `keep` kept after the one before, each writing only its active rows, from
    the original rows, at eps = k * eps_step <= eps_max. The loop stops when
    no sample is left or the next eps would exceed eps_max. The result is the
    batch the last pass left; every written row comes from the last pass its
    sample was active in. A failure of _compute, or a label array with fewer
    rows than x, aborts the call.
   */
  method MinimalPerturbation(c: Classifier, norm: NormOrder, targeted: bool, sqrt: real -> real,
                             x: Batch, y: Batch, epsStep: real, epsMax: real, keep: (Batch, nat) -> bool)
      returns (r: Result<Batch>, ghost origins: seq<Origin>, ghost passes: nat, ghost trace: seq<Pass>)
    requires Terminates(epsStep, epsMax, |x|)
    ensures passes <= MaxPasses(epsStep, epsMax)
    ensures r == Failure(IndexOutOfRange) <==> |x| > 0 && epsStep <= epsMax && |y| < |x|
    ensures r.Failure? ==> r.error == IndexOutOfRange || r.error == ShapeMismatch || r.error == NotFinite
    ensures r.Failure? && r.error != IndexOutOfRange ==>
      |trace| == passes && Ran(c, x, epsStep, epsMax, keep, trace) && Computed(c, norm, targeted, sqrt, x, y, epsStep, trace) &&
      FailedAt(c, norm, targeted, sqrt, x, y, epsStep, epsMax, keep, trace, r.error)
    ensures r.Success? ==>
      |trace| == passes && Ran(c, x, epsStep, epsMax, keep, trace) && Computed(c, norm, targeted, sqrt, x, y, epsStep, trace) &&
      r.value == (if passes == 0 then x else trace[passes - 1].after)
    ensures r.Success? && passes > 0 ==>
      NextActive(trace[passes - 1], keep) == [] || EpsAtPass(passes + 1, epsStep) > epsMax
    ensures r.Success? ==> AllRowsFrom(c, norm, targeted, sqrt, x, y, epsStep, r.value, origins, passes)
    ensures r.Success? ==> Latest(origins, trace)
    ensures r.Success? ==> (passes == 0 <==> |x| == 0 || epsMax < epsStep)
    ensures r.Success? && passes > 0 ==> AllWritten(origins)
    ensures r.Success? && |x| > 0 && (forall b, i :: keep(b, i)) ==> passes == MaxPasses(epsStep, epsMax)
    ensures r.Success? && c.clipMin <= c.clipMax && InRange(x, c.clipMin, c.clipMax) ==> InRange(r.value, c.clipMin, c.clipMax)
  {
    var s, rows;
    ghost var active, currentEps;
    s, rows, origins, active, currentEps, passes, trace := SearchLoop(c, norm, targeted, sqrt, x, y, epsStep, epsMax, keep);
    if s.Stop? {
      assert active == ActiveAfter(x, keep, trace) && currentEps == EpsAtPass(|trace| + 1, epsStep);
      return Failure(s.error), origins, passes, trace;
    }
    if passes == 0 {
      assert EpsAtPass(1, epsStep) == EpsAtPass(0, epsStep) + epsStep == epsStep;
      assert |active| == |Range(|x|)| == |x|;
    }
    if |x| > 0 && epsStep > 0.0 && (forall b, i :: keep(b, i)) {
      PassesReached(passes, epsStep, epsMax);
    }
    if c.clipMin <= c.clipMax && InRange(x, c.clipMin, c.clipMax) {
      MinimalResultInRange(c, norm, targeted, sqrt, x, y, epsStep, rows, origins);
    }
    return Success(rows), origins, passes, trace;
  }

  /** Before the first pass: adv_x = x, every row original, every index active, current_eps = eps_step. */
  lemma SearchStarts(c: Classifier, norm: NormOrder, targeted: bool, sqrt: real -> real,
                     x: Batch, y: Batch, epsStep: real, epsMax: real, keep: (Batch, nat) -> bool, origins: seq<Origin>)
    requires origins == seq(|x|, i requires 0 <= i < |x| => Original)
    ensures Searching(c, norm, targeted, sqrt, x, y, epsStep, epsMax, keep, x, origins, Range(|x|), epsStep, 0, [])
  {
    assert EpsAtPass(1, epsStep) == EpsAtPass(0, epsStep) + epsStep;
  }

  /**
    The while loop of _minimal_perturbation on adv_x = x.copy(), with every
    index active and current_eps = eps_step: it ends with the error of a
    pass, or with the loop condition false in a state the passes reached.
   */
  method SearchLoop(c: Classifier, norm: NormOrder, targeted: bool, sqrt: real -> real,
                    x: Batch, y: Batch, epsStep: real, epsMax: real, keep: (Batch, nat) -> bool)
      returns (s: SearchOutcome, rows: Batch, ghost origins: seq<Origin>, ghost active: seq<nat>, ghost currentEps: real,
               ghost passes: nat, ghost trace: seq<Pass>)
    requires Terminates(epsStep, epsMax, |x|)
    ensures passes <= MaxPasses(epsStep, epsMax)
    ensures s.Stop? ==> s.error == IndexOutOfRange || s.error == ShapeMismatch || s.error == NotFinite
    ensures s.Stop? ==> (s.error == IndexOutOfRange <==> |x| > 0 && epsStep <= epsMax && |y| < |x|)
    ensures s.Continue? ==> s.active == active && (|active| == 0 || currentEps > epsMax)
    ensures s.Stop? ==>
      |active| != 0 && currentEps <= epsMax &&
      Searching(c, norm, targeted, sqrt, x, y, epsStep, epsMax, keep, rows, origins, active, currentEps, passes, trace) &&
      (s.error != IndexOutOfRange ==>
        Indexes(active, |y|) &&
        Compute(c, norm, targeted, sqrt, Select(x, active), Select(y, active), currentEps) == Failure(s.error))
    ensures s.Continue? ==>
      Searching(c, norm, targeted, sqrt, x, y, epsStep, epsMax, keep, rows, origins, active, currentEps, passes, trace)
  {
    var adv := new Sample[|x|](i requires 0 <= i < |x| => x[i]);
    origins := seq(|x|, i requires 0 <= i < |x| => Original);
    var act: seq<nat> := Range(|x|);
    var eps := epsStep;
    passes := 0;
    trace := [];
    assert adv[..] == x;
    SearchStarts(c, norm, targeted, sqrt, x, y, epsStep, epsMax, keep, origins);
    while |act| != 0 && eps <= epsMax
      invariant adv.Length == |x|
      invariant Searching(c, norm, targeted, sqrt, x, y, epsStep, epsMax, keep, adv[..], origins, act, eps, passes, trace)
      decreases MaxPasses(epsStep, epsMax) - passes
    {
      var step;
      ghost var origins1, p;
      step, origins1, p := SearchPass(c, norm, targeted, sqrt, x, y, epsStep, epsMax, keep, adv, act, eps, origins, passes, trace);
      if step.Stop? {
        return step, adv[..], origins, act, eps, passes, trace;
      }
      act := step.active;
      origins := origins1;
      eps := eps + epsStep;
      passes := passes + 1;
      trace := trace + [p];
    }
    return Continue(act), adv[..], origins, act, eps, passes, trace;
  }

  /** The active set never grows: an index active at some pass was active at every pass before it. */
  lemma {:induction false} ActiveNeverGrows(c: Classifier, x: Batch, epsStep: real, epsMax: real, keep: (Batch, nat) -> bool,
                                            trace: seq<Pass>, j: nat, k: nat, i: nat)
    requires Ran(c, x, epsStep, epsMax, keep, trace)
    requires j <= k < |trace| && i in trace[k].active
    ensures i in trace[j].active
    decreases k
  {
    if j < k {
      assert trace[k].active == NextActive(trace[k - 1], keep);
      ActiveNeverGrows(c, x, epsStep, epsMax, keep, trace, j, k - 1, i);
    }
  }

  /**
    A sample is dropped after pass k only when `keep` rejects it for the
    predictions of pass k, and from then on every batch keeps the row pass k
    left for it.
   */
  lemma {:induction false} DroppedSampleKeepsRow(c: Classifier, x: Batch, epsStep: real, epsMax: real, keep: (Batch, nat) -> bool,
                                                 trace: seq<Pass>, k: nat, j: nat, i: nat)
    requires Ran(c, x, epsStep, epsMax, keep, trace)
    requires 0 < k <= j < |trace| && i < |x| && i !in trace[k].active
    ensures i in trace[k - 1].active ==> !keep(trace[k - 1].preds, i)
    ensures |trace[j].after| == |trace[k - 1].after| == |x|
    ensures trace[j].after[i] == trace[k - 1].after[i]
    decreases j
  {
    assert trace[k].active == NextActive(trace[k - 1], keep);
    assert PassRan(c, x, epsStep, epsMax, k, trace[k - 1]);
    assert PassRan(c, x, epsStep, epsMax, j + 1, trace[j]);
    if i in trace[j].active {
      ActiveNeverGrows(c, x, epsStep, epsMax, keep, trace, k, j, i);
      assert false;
    }
    if j > k {
      DroppedSampleKeepsRow(c, x, epsStep, epsMax, keep, trace, k, j - 1, i);
    }
  }

  /** A written row of an in-range batch lies in the clip range. */
  lemma WrittenRowInRange(c: Classifier, norm: NormOrder, targeted: bool, sqrt: real -> real,
                          x: Batch, y: Batch, epsStep: real, row: Sample, i: nat, o: Origin)
    requires c.clipMin <= c.clipMax && i < |x| && o.Written?
    requires RowFrom(c, norm, targeted, sqrt, x, y, epsStep, row, i, o)
    ensures forall j :: 0 <= j < |row| ==> c.clipMin <= row[j] <= c.clipMax
  {
    ComputeInRange(c, norm, targeted, sqrt, Select(x, o.act), Select(y, o.act), EpsAtPass(o.pass, epsStep));
  }

  /** Every row of a minimal-perturbation result of an in-range batch lies in the clip range. */
  lemma MinimalResultInRange(c: Classifier, norm: NormOrder, targeted: bool, sqrt: real -> real,
                             x: Batch, y: Batch, epsStep: real, r: Batch, origins: seq<Origin>)
    requires c.clipMin <= c.clipMax && InRange(x, c.clipMin, c.clipMax)
    requires |r| == |x| == |origins|
    requires forall i :: 0 <= i < |x| ==> RowFrom(c, norm, targeted, sqrt, x, y, epsStep, r[i], i, origins[i])
    ensures InRange(r, c.clipMin, c.clipMax)
  {
    forall i | 0 <= i < |r|
      ensures forall j :: 0 <= j < |r[i]| ==> c.clipMin <= r[i][j] <= c.clipMax
    {
      if origins[i].Written? {
        WrittenRowInRange(c, norm, targeted, sqrt, x, y, epsStep, r[i], i, origins[i]);
      }
    }
  }

  lemma SelectInRange(x: Batch, act: seq<nat>, lo: real, hi: real)
    requires InRange(x, lo, hi) && Indexes(act, |x|)
    ensures InRange(Select(x, act), lo, hi)
  {
  }

  /** With the infinity norm, a row written at pass k moves no element of an in-range input by more than k * eps_step, which is at most eps_max. */
  lemma WrittenRowWithinLinfBall(c: Classifier, targeted: bool, sqrt: real -> real,
                                 x: Batch, y: Batch, epsStep: real, epsMax: real, row: Sample, i: nat, o: Origin)
    requires InRange(x, c.clipMin, c.clipMax) && i < |x| && epsStep > 0.0
    requires o.Written? && o.pass <= MaxPasses(epsStep, epsMax)
    requires RowFrom(c, Infinity, targeted, sqrt, x, y, epsStep, row, i, o)
    ensures |row| == |x[i]|
    ensures forall j :: 0 <= j < |row| ==> Abs(row[j] - x[i][j]) <= EpsAtPass(o.pass, epsStep) <= epsMax
  {
    var eps := EpsAtPass(o.pass, epsStep);
    StepWithinMax(o.pass, epsStep, epsMax);
    SelectInRange(x, o.act, c.clipMin, c.clipMax);
    ComputeWithinLinfBall(c, targeted, sqrt, Select(x, o.act), Select(y, o.act), eps);
  }

  /** With the L1 norm, a row written at pass k moves an in-range input sample by at most k * eps_step, at most eps_max, in L1 norm. */
  lemma WrittenRowWithinL1Ball(c: Classifier, targeted: bool, sqrt: real -> real,
                               x: Batch, y: Batch, epsStep: real, epsMax: real, row: Sample, i: nat, o: Origin)
    requires InRange(x, c.clipMin, c.clipMax) && i < |x| && epsStep > 0.0
    requires o.Written? && o.pass <= MaxPasses(epsStep, epsMax)
    requires RowFrom(c, Order(1.0), targeted, sqrt, x, y, epsStep, row, i, o)
    ensures |row| == |x[i]|
    ensures AbsSum(Diff(row, x[i])) <= EpsAtPass(o.pass, epsStep) <= epsMax
  {
    var eps := EpsAtPass(o.pass, epsStep);
    StepWithinMax(o.pass, epsStep, epsMax);
    SelectInRange(x, o.act, c.clipMin, c.clipMax);
    ComputeWithinL1Ball(c, targeted, sqrt, Select(x, o.act), Select(y, o.act), eps);
  }
}
