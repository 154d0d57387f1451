/** Trajectory collection and the backward return/advantage sweep of
    `PPO.generate_samples`. The environment, the policy network and the value
    network are not modelled: what they return at each step is an input. */
module Trajectory {
  import opened Prelude

  /** One transition record. The first five fields are written when the step
      is taken; `vTarget` and `advantage` are absent until the backward sweep
      adds them. */
  datatype Transition<S, A> = Transition(
    s: S,
    oldPolicyProb: real,
    a: A,
    rt: real,
    vt: real,
    vTarget: Option<real>,
    advantage: Option<real>)

  /** What one step of the collection loop obtains from its collaborators:
      the policy's probability for the sampled action, the action, the
      reward and next state from the environment, and the value estimate of
      the pre-step state. */
  datatype EnvStep<S, A> = EnvStep(
    oldPolicyProb: real,
    action: A,
    reward: real,
    nextState: S,
    value: real)

  /** One outer iteration's worth of collaborator output: the state `reset`
      returned and the steps taken from it. */
  datatype Episode<S, A> = Episode(initialState: S, steps: seq<EnvStep<S, A>>)

  /** The two records agree on every field the collection loop wrote. */
  ghost predicate SameObservation<S, A>(x: Transition<S, A>, y: Transition<S, A>)
  {
    x.s == y.s && x.oldPolicyProb == y.oldPolicyProb && x.a == y.a &&
    x.rt == y.rt && x.vt == y.vt
  }

  /** The record carries both labels, with the advantage equal to the
      target minus the value estimate. */
  predicate IsLabelled<S, A>(x: Transition<S, A>)
  {
    x.vTarget.Some? && x.advantage.Some? && x.advantage.value == x.vTarget.value - x.vt
  }

  // ---------------------------------------------------------------------
  // Forward collection loop

  /** The state current at step `k`: the reset state, then each step's
      successor. */
  function StateAt<S, A>(s0: S, steps: seq<EnvStep<S, A>>, k: nat): S
    requires k < |steps|
  {
    if k == 0 then s0 else steps[k - 1].nextState
  }

  /** The records the collection loop appends, before any labels. */
  function Unlabelled<S, A>(s0: S, steps: seq<EnvStep<S, A>>): (r: seq<Transition<S, A>>)
    ensures |r| == |steps|
    ensures |r| > 0 ==> r[0].s == s0
    ensures forall k :: 0 < k < |r| ==> r[k].s == steps[k - 1].nextState
    ensures forall k :: 0 <= k < |r| ==>
      r[k].oldPolicyProb == steps[k].oldPolicyProb && r[k].a == steps[k].action &&
      r[k].rt == steps[k].reward && r[k].vt == steps[k].value
    ensures forall k :: 0 <= k < |r| ==> r[k].vTarget.None? && r[k].advantage.None?
  {
    seq(|steps|, k requires 0 <= k < |steps| =>
      Transition(StateAt(s0, steps, k), steps[k].oldPolicyProb, steps[k].action,
                 steps[k].reward, steps[k].value, None, None))
  }

  /** The rewards of a list of records, in order. */
  function Rewards<S, A>(t: seq<Transition<S, A>>): seq<real>
  {
    seq(|t|, k requires 0 <= k < |t| => t[k].rt)
  }

  /** The inner loop of `generate_samples`: one record per step, the current
      state advancing to the step's successor, and beside the records the
      list `recieved_rewards` of the rewards the environment returned. */
  method CollectTrajectory<S, A>(s0: S, steps: seq<EnvStep<S, A>>)
    returns (records: seq<Transition<S, A>>, rewards: seq<real>)
    ensures records == Unlabelled(s0, steps)
    ensures rewards == Rewards(records)
    ensures |rewards| == |steps| && forall k :: 0 <= k < |steps| ==> rewards[k] == steps[k].reward
  {
    records, rewards := [], [];
    var st := s0;
    for i := 0 to |steps|
      invariant |records| == |rewards| == i
      invariant forall k :: 0 <= k < i ==> records[k] == Unlabelled(s0, steps)[k]
      invariant forall k :: 0 <= k < i ==> rewards[k] == steps[k].reward
      invariant i < |steps| ==> st == StateAt(s0, steps, i)
    {
      var step := steps[i];
      rewards := rewards + [step.reward];
      records := records + [Transition(st, step.oldPolicyProb, step.action, step.reward, step.value, None, None)];
      st := step.nextState;
    }
  }

  // ---------------------------------------------------------------------
  // Backward sweep

  /** `target_reward if target_reward else 0`: the running target is absent
      before the last step is processed, and Python treats both `None` and
      `0.0` as false. Either way the value used is the running target, or 0
      when there is none. */
  function NextValue(target: Option<real>): (r: real)
    ensures r == if target.Some? then target.value else 0.0
  {
    if target.Some? && target.value != 0.0 then target.value else 0.0
  }

  /** The return target of step `i`: its reward plus the discounted target of
      the following step, 0 past the last step. */
  function TargetFrom<S, A>(t: seq<Transition<S, A>>, gamma: real, i: nat): real
    requires i <= |t|
    decreases |t| - i
  {
    if i == |t| then 0.0 else t[i].rt + gamma * TargetFrom(t, gamma, i + 1)
  }

  /** A record with its return target and the advantage derived from it. */
  function Label<S, A>(x: Transition<S, A>, target: real): Transition<S, A>
  {
    x.(vTarget := Some(target), advantage := Some(target - x.vt))
  }

  /** The trajectory after the backward sweep. */
  function Labelled<S, A>(t: seq<Transition<S, A>>, gamma: real): (r: seq<Transition<S, A>>)
    ensures |r| == |t|
    ensures forall k :: 0 <= k < |r| ==> SameObservation(r[k], t[k])
    ensures forall k :: 0 <= k < |r| ==> IsLabelled(r[k])
  {
    var r := seq(|t|, k requires 0 <= k < |t| => Label(t[k], TargetFrom(t, gamma, k)));
    assert forall k :: 0 <= k < |r| ==> r[k] == Label(t[k], TargetFrom(t, gamma, k));
    r
  }

  lemma LabelledAt<S, A>(t: seq<Transition<S, A>>, gamma: real, k: nat)
    requires k < |t|
    ensures Labelled(t, gamma)[k] == Label(t[k], TargetFrom(t, gamma, k))
  {
  }

  /** The backward sweep of `generate_samples`, writing both labels into the
      records in place.
      The source iterates `range(len(recieved_rewards), 0, -1)`: its first
      read is one past the end and it never reaches index 0 (see
      LiteralSweepOrder below). This method sweeps the intended indices
      n-1 down to 0. As in the source, each step's reward is read from the
      separate reward list collected beside the records. */
  method LabelTrajectory<S, A>(sample: array<Transition<S, A>>, rewards: seq<real>, gamma: real)
    requires rewards == Rewards(sample[..])
    modifies sample
    ensures sample[..] == Labelled(old(sample[..]), gamma)
  {
    ghost var t := sample[..];
    var targetReward: Option<real> := None;
    var i := sample.Length;
    while i > 0
      invariant 0 <= i <= sample.Length
      invariant forall k {:trigger sample[k]} :: 0 <= k < i ==> sample[k] == t[k]
      invariant forall k {:trigger sample[k]} :: i <= k < sample.Length ==> sample[k] == Label(t[k], TargetFrom(t, gamma, k))
      invariant targetReward == if i == sample.Length then None else Some(TargetFrom(t, gamma, i))
    {
      i := i - 1;
      assert sample[i] == t[i];
      var trueReward := rewards[i];
      var nextValue := NextValue(targetReward);
      var discounted := trueReward + gamma * nextValue;
      SweepStep(t, gamma, i, targetReward);
      assert discounted == TargetFrom(t, gamma, i);
      targetReward := Some(discounted);
      var curr := sample[i];
      var advantage := discounted - curr.vt;
      sample[i] := curr.(vTarget := Some(discounted), advantage := Some(advantage));
      assert sample[i] == Label(t[i], TargetFrom(t, gamma, i));
    }
    LabelledFromParts(t, sample[..], gamma);
  }

  /** One iteration of the sweep computes the target of its own step. */
  lemma SweepStep<S, A>(t: seq<Transition<S, A>>, gamma: real, i: nat, target: Option<real>)
    requires i < |t|
    requires target == if i + 1 == |t| then None else Some(TargetFrom(t, gamma, i + 1))
    ensures t[i].rt + gamma * NextValue(target) == TargetFrom(t, gamma, i)
  {
  }

  lemma LabelledFromParts<S, A>(t: seq<Transition<S, A>>, s: seq<Transition<S, A>>, gamma: real)
    requires |s| == |t|
    requires forall k :: 0 <= k < |t| ==> s[k] == Label(t[k], TargetFrom(t, gamma, k))
    ensures s == Labelled(t, gamma)
  {
    forall k | 0 <= k < |t|
      ensures s[k] == Labelled(t, gamma)[k]
    {
      LabelledAt(t, gamma, k);
    }
  }

  // ---------------------------------------------------------------------
  // Properties of the sweep

  /** Each step's target is its reward plus the discounted target of the next
      step; the last step's is its reward alone. */
  lemma LabelledRecurrence<S, A>(t: seq<Transition<S, A>>, gamma: real, k: nat)
    requires k < |t|
    ensures Labelled(t, gamma)[k].vTarget.value ==
      t[k].rt + gamma * (if k + 1 < |t| then Labelled(t, gamma)[k + 1].vTarget.value else 0.0)
  {
    LabelledAt(t, gamma, k);
    if k + 1 < |t| {
      LabelledAt(t, gamma, k + 1);
    }
  }

  /** A one-step trajectory: the target is the reward. */
  lemma LabelledSingleStep<S, A>(t: seq<Transition<S, A>>, gamma: real)
    requires |t| == 1
    ensures Labelled(t, gamma)[0].vTarget == Some(t[0].rt)
    ensures Labelled(t, gamma)[0].advantage == Some(t[0].rt - t[0].vt)
  {
    LabelledAt(t, gamma, 0);
  }

  /** A two-step trajectory with rewards r0, r1: targets r0 + gamma * r1 and r1. */
  lemma LabelledTwoSteps<S, A>(t: seq<Transition<S, A>>, gamma: real)
    requires |t| == 2
    ensures Labelled(t, gamma)[1].vTarget == Some(t[1].rt)
    ensures Labelled(t, gamma)[0].vTarget == Some(t[0].rt + gamma * t[1].rt)
  {
    LabelledAt(t, gamma, 0);
    LabelledAt(t, gamma, 1);
    assert TargetFrom(t, gamma, 1) == t[1].rt;
    assert TargetFrom(t, gamma, 0) == t[0].rt + gamma * TargetFrom(t, gamma, 1);
    assert TargetFrom(t, gamma, 0) == t[0].rt + gamma * t[1].rt;
    assert Labelled(t, gamma)[0].vTarget == Some(TargetFrom(t, gamma, 0));
  }

  lemma {:induction false} ZeroRewardsTarget<S, A>(t: seq<Transition<S, A>>, gamma: real, i: nat)
    requires i <= |t|
    requires forall k :: 0 <= k < |t| ==> t[k].rt == 0.0
    ensures TargetFrom(t, gamma, i) == 0.0
    decreases |t| - i
  {
    if i < |t| {
      ZeroRewardsTarget(t, gamma, i + 1);
    }
  }

  /** With zero reward at every step, every target is 0 and every advantage is
      minus the value estimate. */
  lemma LabelledZeroRewards<S, A>(t: seq<Transition<S, A>>, gamma: real)
    requires forall k :: 0 <= k < |t| ==> t[k].rt == 0.0
    ensures forall k :: 0 <= k < |t| ==>
      Labelled(t, gamma)[k].vTarget == Some(0.0) && Labelled(t, gamma)[k].advantage == Some(-t[k].vt)
  {
    forall k | 0 <= k < |t|
      ensures Labelled(t, gamma)[k].vTarget == Some(0.0)
      ensures Labelled(t, gamma)[k].advantage == Some(-t[k].vt)
    {
      ZeroRewardsTarget(t, gamma, k);
      LabelledAt(t, gamma, k);
    }
  }

  // ---------------------------------------------------------------------
  // Closed form: the target is the discounted sum of the remaining rewards

  function Pow(g: real, n: nat): real
  {
    if n == 0 then 1.0 else g * Pow(g, n - 1)
  }

  /** The sum of g^j * rewards[j] for j from `j` to the end. */
  function WeightedFrom(rewards: seq<real>, g: real, j: nat): real
    requires j <= |rewards|
    decreases |rewards| - j
  {
    if j == |rewards| then 0.0 else Pow(g, j) * rewards[j] + WeightedFrom(rewards, g, j + 1)
  }

  /** The discounted return of a reward sequence: the sum of g^j * rewards[j]. */
  function DiscountedReturn(rewards: seq<real>, g: real): real
  {
    WeightedFrom(rewards, g, 0)
  }

  lemma {:induction false} TargetFromWeighted<S, A>(t: seq<Transition<S, A>>, g: real, i: nat)
    requires i <= |t|
    ensures Pow(g, i) * TargetFrom(t, g, i) == WeightedFrom(Rewards(t), g, i)
    decreases |t| - i
  {
    if i < |t| {
      TargetFromWeighted(t, g, i + 1);
      TargetWeightedStep(t, g, i);
    }
  }

  /** The induction step of the lemma above: scaling the recurrence for the
      target of step i by g^i reproduces the weighted sum from step i. */
  lemma TargetWeightedStep<S, A>(t: seq<Transition<S, A>>, g: real, i: nat)
    requires i < |t|
    requires Pow(g, i + 1) * TargetFrom(t, g, i + 1) == WeightedFrom(Rewards(t), g, i + 1)
    ensures Pow(g, i) * TargetFrom(t, g, i) == WeightedFrom(Rewards(t), g, i)
  {
    assert Rewards(t)[i] == t[i].rt;
    Distribute(Pow(g, i), g, t[i].rt, TargetFrom(t, g, i + 1), WeightedFrom(Rewards(t), g, i + 1),
               Pow(g, i + 1), TargetFrom(t, g, i), WeightedFrom(Rewards(t), g, i));
  }

  /** Plain real arithmetic used by the step above: with p = g^i, from
      g^(i+1) * rest == w conclude g^i * (r + g * rest) == g^i * r + w. */
  lemma Distribute(p: real, g: real, r: real, rest: real, w: real, pNext: real, target: real, weighted: real)
    requires pNext == g * p && pNext * rest == w
    requires target == r + g * rest && weighted == p * r + w
    ensures p * target == weighted
  {
  }

  /** The target of step `i` depends only on the records from `i` on. */
  lemma {:induction false} TargetFromSuffix<S, A>(t: seq<Transition<S, A>>, gamma: real, k: nat, i: nat)
    requires k <= i <= |t|
    ensures TargetFrom(t, gamma, i) == TargetFrom(t[k..], gamma, i - k)
    decreases |t| - i
  {
    if i < |t| {
      TargetFromSuffix(t, gamma, k, i + 1);
    }
  }

  /** After the sweep, step k's target is the discounted return of the
      rewards from step k to the end of its own trajectory. */
  lemma LabelledIsDiscountedReturn<S, A>(t: seq<Transition<S, A>>, gamma: real, k: nat)
    requires k < |t|
    ensures Labelled(t, gamma)[k].vTarget == Some(DiscountedReturn(Rewards(t[k..]), gamma))
  {
    LabelledAt(t, gamma, k);
    TargetFromSuffix(t, gamma, k, k);
    TargetFromWeighted(t[k..], gamma, 0);
    assert Pow(gamma, 0) == 1.0;
  }

  // ---------------------------------------------------------------------
  // The index range as written

  /** The indices `range(n, 0, -1)` yields: n, n-1, ..., 1. */
  function LiteralSweepOrder(n: nat): (r: seq<nat>)
    ensures |r| == n
  {
    if n == 0 then [] else [n] + LiteralSweepOrder(n - 1)
  }

  /** The indices the sweep is meant to visit: n-1, n-2, ..., 0. */
  function IntendedSweepOrder(n: nat): (r: seq<nat>)
    ensures |r| == n
  {
    if n == 0 then [] else [n - 1] + IntendedSweepOrder(n - 1)
  }

  /** The literal range yields n - k at position k: it starts one past the
      last valid index and never yields 0. */
  lemma {:induction false} LiteralSweepMisses(n: nat)
    ensures forall k :: 0 <= k < n ==> LiteralSweepOrder(n)[k] == n - k
    ensures n > 0 ==> LiteralSweepOrder(n)[0] >= n
    ensures 0 !in LiteralSweepOrder(n)
  {
    if n > 0 {
      LiteralSweepMisses(n - 1);
    }
  }

  /** The intended range visits every valid index once, last to first. */
  lemma {:induction false} IntendedSweepCovers(n: nat)
    ensures forall k :: 0 <= k < n ==> IntendedSweepOrder(n)[k] == n - 1 - k
  {
    if n > 0 {
      IntendedSweepCovers(n - 1);
    }
  }

  /** One backward step per index of `order`, as the source's loop body does
      it, raising IndexError when an index is past the end. */
  function SweepAlong<S, A>(t: seq<Transition<S, A>>, gamma: real, order: seq<nat>, target: Option<real>)
    : Result<seq<Transition<S, A>>>
    decreases |order|
  {
    if order == [] then Ok(t)
    else if order[0] >= |t| then Err(IndexError)
    else
      var d := t[order[0]].rt + gamma * NextValue(target);
      SweepAlong(t[order[0] := Label(t[order[0]], d)], gamma, order[1..], Some(d))
  }

  /** The sweep as written raises IndexError on every non-empty trajectory. */
  lemma LiteralSweepFails<S, A>(t: seq<Transition<S, A>>, gamma: real)
    requires |t| > 0
    ensures SweepAlong(t, gamma, LiteralSweepOrder(|t|), None) == Err(IndexError)
  {
  }

  /** The same loop body run over the intended indices computes exactly the
      labelled trajectory: started from the unlabelled records with no
      running target, it never raises and returns `Labelled(t, gamma)`. */
  lemma IntendedSweepLabels<S, A>(t: seq<Transition<S, A>>, gamma: real)
    ensures SweepAlong(t, gamma, IntendedSweepOrder(|t|), None) == Ok(Labelled(t, gamma))
  {
    SweepFrom(t, t, gamma, |t|);
  }

  /** Invariant form of the lemma above: the records below `i` are still
      unlabelled, those from `i` on are labelled, and the running target is
      that of step `i`. */
  lemma {:induction false} SweepFrom<S, A>(t: seq<Transition<S, A>>, s: seq<Transition<S, A>>, gamma: real, i: nat)
    requires i <= |t| == |s|
    requires forall k :: 0 <= k < i ==> s[k] == t[k]
    requires forall k :: i <= k < |t| ==> s[k] == Label(t[k], TargetFrom(t, gamma, k))
    ensures SweepAlong(s, gamma, IntendedSweepOrder(i), if i == |t| then None else Some(TargetFrom(t, gamma, i)))
      == Ok(Labelled(t, gamma))
    decreases i
  {
    var target := if i == |t| then None else Some(TargetFrom(t, gamma, i));
    if i == 0 {
      LabelledFromParts(t, s, gamma);
    } else {
      var order := IntendedSweepOrder(i);
      assert order[0] == i - 1 && order[1..] == IntendedSweepOrder(i - 1);
      SweepStep(t, gamma, i - 1, target);
      var d := s[i - 1].rt + gamma * NextValue(target);
      assert d == TargetFrom(t, gamma, i - 1);
      var s' := s[i - 1 := Label(s[i - 1], d)];
      SweepAlongStep(s, gamma, order, target);
      assert s'[i - 1] == Label(t[i - 1], TargetFrom(t, gamma, i - 1));
      SweepFrom(t, s', gamma, i - 1);
    }
  }

  /** One step of `SweepAlong` at a valid index. */
  lemma SweepAlongStep<S, A>(t: seq<Transition<S, A>>, gamma: real, order: seq<nat>, target: Option<real>)
    requires order != [] && order[0] < |t|
    ensures var d := t[order[0]].rt + gamma * NextValue(target);
      SweepAlong(t, gamma, order, target) == SweepAlong(t[order[0] := Label(t[order[0]], d)], gamma, order[1..], Some(d))
  {
  }
}
