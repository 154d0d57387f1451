/** The clipped-objective arithmetic of `PPO.train`: the probability ratio,
    its clipping to [1 - eta, 1 + eta], the pessimistic surrogate, the value
    error, the per-sample loss and the mini-batch average handed to the
    optimizer. Arithmetic is exact over `real`. */
module Loss {
  import opened Prelude
  import opened Trajectory

  function Abs(x: real): real
  {
    if x < 0.0 then -x else x
  }

  /** Python's `min` of two numbers. */
  function Min(x: real, y: real): (m: real)
    ensures m <= x && m <= y
    ensures m == x || m == y
  {
    if y < x then y else x
  }

  // ---------------------------------------------------------------------
  // Ratio and clipping

  /** `new_policy_prob / old_policy_prob`, raising ZeroDivisionError on a
      zero old probability. */
  function ProbRatio(newProb: real, oldProb: real): (r: Result<real>)
    ensures r.Ok? <==> oldProb != 0.0
    ensures r.Err? ==> r.error == ZeroDivisionError
    ensures r.Ok? ==> r.value * oldProb == newProb
  {
    if oldProb == 0.0 then Err(ZeroDivisionError) else Ok(newProb / oldProb)
  }

  /** The if/elif chain that clips the ratio to [1 - eta, 1 + eta]. */
  function Clip(ratio: real, eta: real): (c: real)
    ensures 0.0 <= eta ==> 1.0 - eta <= c <= 1.0 + eta
    ensures 1.0 - eta <= ratio <= 1.0 + eta ==> c == ratio
  {
    if ratio < 1.0 - eta then 1.0 - eta
    else if ratio > 1.0 + eta then 1.0 + eta
    else ratio
  }

  /** For a non-negative eta, the clipped ratio is the point of the interval
      nearest to the ratio. */
  lemma ClipIsNearest(ratio: real, eta: real, x: real)
    requires 0.0 <= eta && 1.0 - eta <= x <= 1.0 + eta
    ensures Abs(ratio - Clip(ratio, eta)) <= Abs(ratio - x)
  {
  }

  /** Clipping preserves the order of ratios. */
  lemma ClipMonotone(r1: real, r2: real, eta: real)
    requires 0.0 <= eta && r1 <= r2
    ensures Clip(r1, eta) <= Clip(r2, eta)
  {
  }

  // ---------------------------------------------------------------------
  // Clipped surrogate

  /** `min(prob_ratio * adv, clipped_prob * adv)`: never more than either the
      unclipped or the clipped term, and equal to one of them. */
  function LossClip(ratio: real, eta: real, adv: real): (l: real)
    ensures l <= ratio * adv && l <= Clip(ratio, eta) * adv
    ensures l == ratio * adv || l == Clip(ratio, eta) * adv
  {
    Min(ratio * adv, Clip(ratio, eta) * adv)
  }

  /** An unchanged policy (ratio 1) gets the advantage itself. */
  lemma LossClipAtRatioOne(eta: real, adv: real)
    requires 0.0 <= eta
    ensures LossClip(1.0, eta, adv) == adv
  {
  }

  /** Inside the trust region the surrogate is the unclipped term. */
  lemma LossClipInsideRegion(ratio: real, eta: real, adv: real)
    requires 1.0 - eta <= ratio <= 1.0 + eta
    ensures LossClip(ratio, eta, adv) == ratio * adv
  {
  }

  /** A positive advantage earns no credit beyond ratio 1 + eta. */
  lemma LossClipCapsGain(ratio: real, eta: real, adv: real)
    requires 0.0 <= eta && adv > 0.0 && ratio > 1.0 + eta
    ensures LossClip(ratio, eta, adv) == (1.0 + eta) * adv
  {
    assert Clip(ratio, eta) == 1.0 + eta;
    assert ratio * adv > (1.0 + eta) * adv;
  }

  /** A negative advantage is not amplified below ratio 1 - eta. */
  lemma LossClipCapsLoss(ratio: real, eta: real, adv: real)
    requires adv < 0.0 && ratio < 1.0 - eta
    ensures LossClip(ratio, eta, adv) == (1.0 - eta) * adv
  {
    assert Clip(ratio, eta) == 1.0 - eta;
    assert ratio * adv > (1.0 - eta) * adv;
  }

  /** A move that makes a good action less likely, or a bad one more likely,
      is charged in full: the min picks the unclipped term. */
  lemma LossClipChargesHarm(ratio: real, eta: real, adv: real)
    requires 0.0 <= eta
    requires (adv > 0.0 && ratio < 1.0 - eta) || (adv < 0.0 && ratio > 1.0 + eta)
    ensures LossClip(ratio, eta, adv) == ratio * adv
  {
    if adv > 0.0 {
      assert Clip(ratio, eta) == 1.0 - eta;
      assert ratio * adv < (1.0 - eta) * adv;
    } else {
      assert Clip(ratio, eta) == 1.0 + eta;
      assert ratio * adv < (1.0 + eta) * adv;
    }
  }

  // ---------------------------------------------------------------------
  // Value error and per-sample loss

  /** `d ** 2`. */
  function Square(d: real): real
  {
    d * d
  }

  lemma ProductPositive(x: real, y: real, p: real)
    requires x > 0.0 && y > 0.0 && p == x * y
    ensures p > 0.0
  {
  }

  /** A square is never negative, and it is zero only at zero. */
  lemma SquareSign(d: real)
    ensures Square(d) >= 0.0
    ensures Square(d) == 0.0 <==> d == 0.0
  {
    if d > 0.0 {
      ProductPositive(d, d, Square(d));
    } else if d < 0.0 {
      ProductPositive(-d, -d, Square(d));
    }
  }

  /** `(v_target - v_t) ** 2`: never negative, and zero exactly for an exact
      value prediction. */
  function ValueError(vTarget: real, v: real): (e: real)
    ensures e >= 0.0
    ensures e == 0.0 <==> vTarget == v
  {
    SquareSign(vTarget - v);
    Square(vTarget - v)
  }

  /** `-1 * (loss_clip + coeff1 * loss_value + coeff2 * loss_entropy)`, with
      the signs exactly as the source writes them. The value error sits
      inside the negation with the same sign as the surrogate, so a
      minimiser of this loss is pushed towards a LARGER value error (see
      SampleLossRewardsValueError). The entropy term is an input. */
  function SampleLoss(lossClip: real, lossValue: real, lossEntropy: real, coeff1: real, coeff2: real): real
  {
    -1.0 * (lossClip + coeff1 * lossValue + coeff2 * lossEntropy)
  }

  /** With a positive `coeff1`, a larger value error gives a smaller loss. */
  lemma SampleLossRewardsValueError(lossClip: real, e1: real, e2: real, lossEntropy: real, coeff1: real, coeff2: real)
    requires coeff1 > 0.0 && e1 < e2
    ensures SampleLoss(lossClip, e2, lossEntropy, coeff1, coeff2) < SampleLoss(lossClip, e1, lossEntropy, coeff1, coeff2)
  {
    assert coeff1 * e1 < coeff1 * e2;
  }

  /** A larger surrogate gives a smaller loss, and the three terms enter
      additively: the loss plus the weighted terms is zero. */
  lemma SampleLossShape(l1: real, l2: real, lossValue: real, lossEntropy: real, coeff1: real, coeff2: real)
    requires l1 < l2
    ensures SampleLoss(l2, lossValue, lossEntropy, coeff1, coeff2) < SampleLoss(l1, lossValue, lossEntropy, coeff1, coeff2)
    ensures SampleLoss(l1, lossValue, lossEntropy, coeff1, coeff2) + l1 + coeff1 * lossValue + coeff2 * lossEntropy == 0.0
  {
  }

  /** One draw of the mini-batch loop: the stored record, and what the
      current policy and value networks give for its state, together with the
      entropy term. */
  datatype Sample<S, A> = Sample(record: Transition<S, A>, newPolicyProb: real, newValue: real, lossEntropy: real)

  /** The loss of one draw, lines 86 to 99. The ratio is taken first
      (ZeroDivisionError on a zero old probability); then the record's
      `advantage_t` and `v_target` keys are read (KeyError on a record the
      sweep never labelled). */
  function SampleLossOf<S, A>(x: Sample<S, A>, eta: real, coeff1: real, coeff2: real): (r: Result<real>)
    ensures r.Err? <==> x.record.oldPolicyProb == 0.0 || x.record.advantage.None? || x.record.vTarget.None?
    ensures x.record.oldPolicyProb == 0.0 ==> r == Err(ZeroDivisionError)
    ensures x.record.oldPolicyProb != 0.0 && r.Err? ==> r == Err(KeyError)
    ensures r.Ok? ==>
      exists ratio ::
        ratio * x.record.oldPolicyProb == x.newPolicyProb &&
        r.value == SampleLoss(LossClip(ratio, eta, x.record.advantage.value),
                              ValueError(x.record.vTarget.value, x.newValue), x.lossEntropy, coeff1, coeff2)
  {
    match ProbRatio(x.newPolicyProb, x.record.oldPolicyProb)
    case Err(e) => Err(e)
    case Ok(ratio) =>
      if x.record.advantage.None? then Err(KeyError)
      else
        var lossClip := LossClip(ratio, eta, x.record.advantage.value);
        if x.record.vTarget.None? then Err(KeyError)
        else
          var lossValue := ValueError(x.record.vTarget.value, x.newValue);
          Ok(SampleLoss(lossClip, lossValue, x.lossEntropy, coeff1, coeff2))
  }

  // ---------------------------------------------------------------------
  // Mini-batch aggregate

  /** The outcome of each draw of the batch, in draw order. */
  function PerSampleLosses<S, A>(batch: seq<Sample<S, A>>, eta: real, coeff1: real, coeff2: real)
    : seq<Result<real>>
  {
    seq(|batch|, k requires 0 <= k < |batch| => SampleLossOf(batch[k], eta, coeff1, coeff2))
  }

  /** `total_losses += loss` over the outcomes, left to right, starting from
      0; the first failing outcome's error stops it. */
  function Accumulate(results: seq<Result<real>>): Result<real>
    decreases |results|
  {
    if results == [] then Ok(0.0)
    else
      match Accumulate(results[..|results| - 1])
      case Err(e) => Err(e)
      case Ok(total) =>
        match results[|results| - 1]
        case Err(e) => Err(e)
        case Ok(l) => Ok(total + l)
  }

  /** `total_losses / mini_batch_size`, the value handed to the optimizer;
      an empty batch divides by zero. */
  function MiniBatchAggregate<S, A>(batch: seq<Sample<S, A>>, eta: real, coeff1: real, coeff2: real): Result<real>
  {
    if |batch| == 0 then Err(ZeroDivisionError)
    else
      match Accumulate(PerSampleLosses(batch, eta, coeff1, coeff2))
      case Err(e) => Err(e)
      case Ok(total) => Ok(total / (|batch| as real))
  }

  /** The sum exists exactly when every outcome is a value. */
  lemma {:induction false} AccumulateOk(results: seq<Result<real>>)
    ensures Accumulate(results).Ok? <==> forall k :: 0 <= k < |results| ==> results[k].Ok?
    decreases |results|
  {
    if results != [] {
      var front := results[..|results| - 1];
      AccumulateOk(front);
      assert forall k :: 0 <= k < |front| ==> front[k] == results[k];
    }
  }

  /** Once a prefix fails, the whole sum fails with the same error. */
  lemma {:induction false} AccumulatePrefixErr(results: seq<Result<real>>, i: nat)
    requires i <= |results|
    requires Accumulate(results[..i]).Err?
    ensures Accumulate(results) == Accumulate(results[..i])
    decreases |results|
  {
    if i < |results| {
      var front := results[..|results| - 1];
      assert front[..i] == results[..i];
      AccumulatePrefixErr(front, i);
    } else {
      assert results[..i] == results;
    }
  }

  lemma BoundStep(m: real, lo: real, hi: real, total: real, l: real)
    requires m * lo <= total <= m * hi && lo <= l <= hi
    ensures (m + 1.0) * lo <= total + l <= (m + 1.0) * hi
  {
    assert (m + 1.0) * lo == m * lo + lo;
    assert (m + 1.0) * hi == m * hi + hi;
  }

  /** n values in [lo, hi] sum to a value in [n * lo, n * hi]. */
  lemma {:induction false} AccumulateBounds(results: seq<Result<real>>, lo: real, hi: real)
    requires forall k :: 0 <= k < |results| ==> results[k].Ok? && lo <= results[k].value <= hi
    ensures Accumulate(results).Ok?
    ensures (|results| as real) * lo <= Accumulate(results).value <= (|results| as real) * hi
    decreases |results|
  {
    if results != [] {
      var front := results[..|results| - 1];
      assert forall k :: 0 <= k < |front| ==> front[k] == results[k];
      AccumulateBounds(front, lo, hi);
      BoundStep(|front| as real, lo, hi, Accumulate(front).value, results[|results| - 1].value);
    }
  }

  /** The aggregate exists exactly when the batch is non-empty and every
      draw's loss does. */
  lemma AggregateOk<S, A>(batch: seq<Sample<S, A>>, eta: real, coeff1: real, coeff2: real)
    ensures MiniBatchAggregate(batch, eta, coeff1, coeff2).Ok? <==>
      |batch| > 0 && forall k :: 0 <= k < |batch| ==> SampleLossOf(batch[k], eta, coeff1, coeff2).Ok?
  {
    var losses := PerSampleLosses(batch, eta, coeff1, coeff2);
    AccumulateOk(losses);
    assert forall k :: 0 <= k < |batch| ==> losses[k] == SampleLossOf(batch[k], eta, coeff1, coeff2);
  }

  /** When every draw's loss lies in [lo, hi], so does the average; in
      particular, equal losses average to that loss. */
  lemma AggregateBounds<S, A>(batch: seq<Sample<S, A>>, eta: real, coeff1: real, coeff2: real, lo: real, hi: real)
    requires |batch| > 0
    requires forall k :: 0 <= k < |batch| ==>
      SampleLossOf(batch[k], eta, coeff1, coeff2).Ok? &&
      lo <= SampleLossOf(batch[k], eta, coeff1, coeff2).value <= hi
    ensures MiniBatchAggregate(batch, eta, coeff1, coeff2).Ok?
    ensures lo <= MiniBatchAggregate(batch, eta, coeff1, coeff2).value <= hi
  {
    var losses := PerSampleLosses(batch, eta, coeff1, coeff2);
    AccumulateBounds(losses, lo, hi);
    var n := |batch| as real;
    var total := Accumulate(losses).value;
    AverageBounds(n, total, lo, hi);
  }

  lemma AverageBounds(n: real, total: real, lo: real, hi: real)
    requires n > 0.0 && n * lo <= total <= n * hi
    ensures lo <= total / n <= hi
  {
    assert total / n * n == total;
  }

  /** The draw loop of `train` for one epoch: accumulate the per-sample
      losses and divide by the batch size. */
  method MiniBatchLoss<S, A>(batch: seq<Sample<S, A>>, eta: real, coeff1: real, coeff2: real)
    returns (r: Result<real>)
    ensures r == MiniBatchAggregate(batch, eta, coeff1, coeff2)
  {
    ghost var losses := PerSampleLosses(batch, eta, coeff1, coeff2);
    var totalLosses := 0.0;
    var i := 0;
    while i < |batch|
      invariant 0 <= i <= |batch|
      invariant Accumulate(losses[..i]) == Ok(totalLosses)
    {
      var loss := SampleLossOf(batch[i], eta, coeff1, coeff2);
      assert losses[..i + 1][..i] == losses[..i];
      if loss.Err? {
        AccumulatePrefixErr(losses, i + 1);
        return Err(loss.error);
      }
      totalLosses := totalLosses + loss.value;
      i := i + 1;
    }
    assert losses[..i] == losses;
    if |batch| == 0 {
      return Err(ZeroDivisionError);
    }
    r := Ok(totalLosses / (|batch| as real));
  }

  // ---------------------------------------------------------------------
  // Draws of records the sweep has labelled

  /** A draw of a labelled record fails only on a zero old probability. */
  lemma LabelledSampleLoss<S, A>(x: Sample<S, A>, eta: real, coeff1: real, coeff2: real)
    requires IsLabelled(x.record)
    ensures SampleLossOf(x, eta, coeff1, coeff2).Err? <==> x.record.oldPolicyProb == 0.0
    ensures SampleLossOf(x, eta, coeff1, coeff2).Err? ==> SampleLossOf(x, eta, coeff1, coeff2).error == ZeroDivisionError
  {
  }

  /** When every failing outcome carries the error `e`, so does a failing sum. */
  lemma {:induction false} AccumulateErrorIs(results: seq<Result<real>>, e: Error)
    requires forall k :: 0 <= k < |results| && results[k].Err? ==> results[k].error == e
    ensures Accumulate(results).Err? ==> Accumulate(results).error == e
    decreases |results|
  {
    if results != [] {
      var front := results[..|results| - 1];
      assert forall k :: 0 <= k < |front| ==> front[k] == results[k];
      AccumulateErrorIs(front, e);
    }
  }

  /** A batch of labelled records: its aggregate exists exactly when the batch
      is non-empty and no draw has a zero old probability, and the only error
      it can raise is ZeroDivisionError. */
  lemma AggregateOfLabelled<S, A>(batch: seq<Sample<S, A>>, eta: real, coeff1: real, coeff2: real)
    requires forall k :: 0 <= k < |batch| ==> IsLabelled(batch[k].record)
    ensures MiniBatchAggregate(batch, eta, coeff1, coeff2).Ok? <==>
      |batch| > 0 && forall k :: 0 <= k < |batch| ==> batch[k].record.oldPolicyProb != 0.0
    ensures MiniBatchAggregate(batch, eta, coeff1, coeff2).Err? ==>
      MiniBatchAggregate(batch, eta, coeff1, coeff2).error == ZeroDivisionError
  {
    var losses := PerSampleLosses(batch, eta, coeff1, coeff2);
    forall k | 0 <= k < |batch|
      ensures losses[k].Err? <==> batch[k].record.oldPolicyProb == 0.0
      ensures losses[k].Err? ==> losses[k].error == ZeroDivisionError
    {
      LabelledSampleLoss(batch[k], eta, coeff1, coeff2);
    }
    AggregateOk(batch, eta, coeff1, coeff2);
    AccumulateErrorIs(losses, ZeroDivisionError);
  }
}
