# PPO sample labelling and clipped-objective arithmetic

This project models the computational core of the `PPO` class in
`rl/ppo.py`, in Dafny:

- **Collecting and labelling data** (`PPO.generate_samples`). For each of
  `iterations` episodes, the agent takes `max_trajectory_length` steps and
  records each transition (`s_t`, `old_policy_prob`, `a_t`, `rt`, `v_t`).
  A backward sweep then gives every record a discounted return target
  `v_target` and an advantage `advantage_t = v_target - v_t`. The labelled
  records are appended to `train_data`.
- **Training losses** (`PPO.train`). Per epoch, each mini-batch draw goes
  through these steps: the probability ratio, clipping the ratio to
  `[1 - eta, 1 + eta]`, the pessimistic `min` surrogate, the squared value
  error, the per-sample loss, and finally the running total divided by
  `mini_batch_size`.

The files:

- `prelude.dfy` defines `Option`, `Result` and the Python exceptions the code
  can raise on its own inputs (`ZeroDivisionError`, `KeyError`, `IndexError`).
- `trajectory.dfy` holds the record type and the forward collection loop.
  It holds the in-place backward sweep over an `array`, proved against a
  recursive function on the suffix of the trajectory. It also holds the
  properties of the labels and the closed form (the target is the
  discounted sum of the remaining rewards). Finally it holds the index range
  exactly as the source writes it.
- `loss.dfy` holds the clipping and loss functions, their order properties,
  and the left fold that accumulates the per-sample losses. It also holds
  the loop that computes one mini-batch aggregate.
- `ppo.dfy` holds the `PpoAgent` class. It has the configuration as
  constants, `trainData` as a `seq` field that `GenerateSamples` extends,
  and `Train`, which returns the values handed to `optimizer.backward`.

The environment, policy network, value network and random draws are
collaborators whose code is not shown, so their outputs are inputs here:

- An `Episode` is the state `reset` returned plus, for each step, the
  policy probability, the action, the reward and next state, and the value
  estimate.
- A `Sample` is one stored record, plus what the current networks give for
  its state, plus the entropy term.

All arithmetic is exact over `real`.

Where the code departs from the PPO algorithm as published (Schulman et
al., "Proximal Policy Optimization Algorithms", 2017), the model follows
the code:

- Every episode has exactly `max_trajectory_length` steps. The code never
  looks at a termination flag from the environment.
- The target past the last step is 0. There is no bootstrap from the value
  network.
- The per-sample loss keeps line 99's signs as written. The value-error
  term sits inside the negation with the same sign as the surrogate, so
  minimising the loss pushes the value error up (`Loss.SampleLossRewardsValueError`).
  In the published combined objective `L^CLIP - c1 * L^VF + c2 * S`, the
  value-error term enters with the opposite sign to the surrogate, so it is
  minimised.
- The backward sweep does diverge from the code, on purpose. It visits the
  indices `n-1` down to `0`, not the literal `range(n, 0, -1)`. See
  Findings.

## Model

| member | source | states |
|---|---|---|
| Trajectory.Unlabelled | rl/ppo.py:44-52 | one record per step; the first record holds the reset state, record k>0 holds step k-1's successor; policy prob, action, reward and value copied from the step; no labels yet |
| Trajectory.CollectTrajectory | rl/ppo.py:33-52 | the inner collection loop produces exactly `Unlabelled(s0, steps)`, and beside it the reward list `recieved_rewards`, which holds each step's reward in order and equals the records' `rt` fields |
| Trajectory.NextValue | rl/ppo.py:59 | `target_reward if target_reward else 0` is the running target when there is one (including when it is 0.0) and 0 otherwise |
| Trajectory.Labelled | rl/ppo.py:54-67 | the swept trajectory has the same length; every record keeps its five collected fields; every record has both labels, with advantage = target - v_t |
| Trajectory.LabelTrajectory | rl/ppo.py:54-67 | the in-place backward sweep over the record array, reading each reward from the separate reward list, leaves exactly `Labelled(old contents, gamma)` in it |
| Trajectory.SweepStep | rl/ppo.py:58-61 | one iteration's `true_reward + discount_factor * next_value` is the recursive target of that step, 0 being used past the last step |
| Trajectory.LabelledFromParts | rl/ppo.py:63-67 | a sequence whose every record is its labelled counterpart equals the labelled trajectory |
| Trajectory.LabelledRecurrence | rl/ppo.py:57-61 | each step's target is its reward plus the discount factor times the next step's target; the last step's is its reward alone |
| Trajectory.LabelledSingleStep | rl/ppo.py:57-67 | a one-step trajectory gets target rt and advantage rt - v_t |
| Trajectory.LabelledTwoSteps | rl/ppo.py:57-61 | a two-step trajectory gets targets r0 + gamma*r1 and r1 |
| Trajectory.ZeroRewardsTarget | rl/ppo.py:58-61 | with all rewards 0, every recursive target is 0 |
| Trajectory.LabelledZeroRewards | rl/ppo.py:58-67 | with all rewards 0, every target is 0 and every advantage is -v_t |
| Trajectory.TargetFromWeighted | rl/ppo.py:57-61 | gamma^i times the target of step i equals the sum of gamma^j * r_j over j >= i |
| Trajectory.TargetWeightedStep | rl/ppo.py:60 | the induction step of the weighted-sum identity |
| Trajectory.TargetFromSuffix | rl/ppo.py:57-61 | the target of step i depends only on the records from k <= i on |
| Trajectory.LabelledIsDiscountedReturn | rl/ppo.py:54-66 | after the sweep, step k's target is the discounted return of the rewards from k to the end |
| Trajectory.LiteralSweepOrder | rl/ppo.py:57 | `range(n, 0, -1)` yields n indices |
| Trajectory.IntendedSweepOrder | rl/ppo.py:57 | the intended range yields n indices |
| Trajectory.LiteralSweepMisses | rl/ppo.py:57 | the literal range yields n-k at position k: its first index is n, one past the end, and it never yields 0 |
| Trajectory.IntendedSweepCovers | rl/ppo.py:57 | the intended range yields n-1-k at position k: every valid index once, last to first |
| Trajectory.LiteralSweepFails | rl/ppo.py:57-58 | the loop body run over the literal range raises IndexError on every non-empty trajectory |
| Trajectory.SweepFrom | rl/ppo.py:57-67 | the loop body run over the intended indices below i, with the records from i on labelled, yields the labelled trajectory |
| Trajectory.IntendedSweepLabels | rl/ppo.py:55-67 | the loop body run over the intended indices, from no running target, never raises and yields `Labelled(t, gamma)` |
| Loss.Min | rl/ppo.py:95 | `min` is at most both arguments and equals one of them |
| Loss.ProbRatio | rl/ppo.py:86 | the ratio exists exactly when the old probability is non-zero, times the old probability gives the new one, and is ZeroDivisionError otherwise |
| Loss.Clip | rl/ppo.py:88-93 | for eta >= 0 the clipped ratio lies in [1-eta, 1+eta]; a ratio already in that interval is returned unchanged |
| Loss.ClipIsNearest | rl/ppo.py:88-93 | the clipped ratio is the point of [1-eta, 1+eta] nearest to the ratio |
| Loss.ClipMonotone | rl/ppo.py:88-93 | clipping preserves the order of ratios |
| Loss.LossClip | rl/ppo.py:95 | the surrogate is at most both ratio*adv and clipped*adv and equals one of them |
| Loss.LossClipAtRatioOne | rl/ppo.py:88-95 | at ratio 1 (eta >= 0) the surrogate is the advantage |
| Loss.LossClipInsideRegion | rl/ppo.py:88-95 | inside [1-eta, 1+eta] the surrogate is ratio*adv |
| Loss.LossClipCapsGain | rl/ppo.py:88-95 | adv > 0 and ratio > 1+eta give (1+eta)*adv |
| Loss.LossClipCapsLoss | rl/ppo.py:88-95 | adv < 0 and ratio < 1-eta give (1-eta)*adv |
| Loss.LossClipChargesHarm | rl/ppo.py:88-95 | a good action made less likely, or a bad one more likely, past the region is charged the unclipped ratio*adv |
| Loss.SquareSign | rl/ppo.py:96 | `d ** 2` is never negative and is zero only at zero |
| Loss.ValueError | rl/ppo.py:96 | the value error is never negative and is zero exactly when `v_target == v_t` |
| Loss.SampleLossRewardsValueError | rl/ppo.py:99 | with coeff1 > 0, a larger value error gives a smaller loss (the sign as written) |
| Loss.SampleLossShape | rl/ppo.py:99 | a larger surrogate gives a smaller loss; loss + surrogate + coeff1*value + coeff2*entropy = 0 |
| Loss.SampleLossOf | rl/ppo.py:80-99 | a draw's loss fails exactly when the old probability is 0 (ZeroDivisionError) or the record lacks `advantage_t` or `v_target` (KeyError); otherwise it is line 99's loss of the clipped surrogate of a ratio with ratio*old = new and of the value error |
| Loss.AccumulateOk | rl/ppo.py:77-100 | the running total exists exactly when every outcome is a value |
| Loss.AccumulatePrefixErr | rl/ppo.py:78-100 | once a prefix of the draws fails, the whole loop fails with the same error |
| Loss.AccumulateBounds | rl/ppo.py:77-100 | n per-sample losses in [lo, hi] total between n*lo and n*hi |
| Loss.AggregateOk | rl/ppo.py:77-102 | the value handed to `backward` exists exactly when `mini_batch_size > 0` and every draw's loss exists |
| Loss.AggregateBounds | rl/ppo.py:77-102 | per-sample losses in [lo, hi] give an aggregate in [lo, hi] |
| Loss.LabelledSampleLoss | rl/ppo.py:86-99 | a draw of a labelled record fails exactly when its old probability is 0, and then with ZeroDivisionError |
| Loss.AccumulateErrorIs | rl/ppo.py:78-100 | when every failing draw raises the same error, so does the loop |
| Loss.AggregateOfLabelled | rl/ppo.py:77-102 | for a batch of labelled records, the aggregate exists exactly when the batch is non-empty and no old probability is 0; its only possible error is ZeroDivisionError |
| Loss.MiniBatchLoss | rl/ppo.py:77-102 | the draw loop with its running total returns exactly `MiniBatchAggregate` (ZeroDivisionError for an empty batch, the first draw's error otherwise) |
| Ppo.CollectedLength | rl/ppo.py:30-35 | episodes of `len` steps contribute `|episodes| * len` records |
| Ppo.CollectedStep | rl/ppo.py:69 | one more episode appends its own labelled records after the earlier ones |
| Ppo.CollectedLabelled | rl/ppo.py:54-69 | every collected record carries both labels, with advantage = target - v_t |
| Ppo.AppendLabelled | rl/ppo.py:69 | extending a list of labelled records with labelled records leaves every record labelled |
| Ppo.CollectEpisode | rl/ppo.py:32-67 | one outer iteration produces the episode's unlabelled records after the backward sweep |
| Ppo.PpoAgent.constructor | rl/ppo.py:12-27 | the configuration is stored and `train_data` starts empty, so the invariant that every stored record is labelled holds |
| Ppo.PpoAgent.GenerateSamples | rl/ppo.py:29-69 | `train_data` becomes the old contents followed by every episode's labelled records; it grows by `iterations * max_trajectory_length` and its earlier records are untouched; every stored record stays labelled |
| Ppo.PpoAgent.Train | rl/ppo.py:71-102 | with every draw taken from `train_data`, training succeeds exactly when every epoch's aggregate exists, which is exactly when every batch is non-empty and no drawn record has old probability 0; it returns one `backward` argument per epoch equal to that aggregate; on failure the error is that of the first failing epoch, and it is always ZeroDivisionError |

## Left out

- The environment (`reset`, `step`), the policy network and the value network are foreign collaborators. What they return becomes the `Episode` and `Sample` inputs.
- `random.sample` and `random.shuffle` (lines 37, 76, 79) are random draws. The mini-batches are given as input, one sequence of draws per epoch, each draw a record of `train_data`. The literal calls would fail with a TypeError before any loss is computed: `random.shuffle` returns `None`, so line 79's `random.sample(None, k=1)` raises, and line 80 is never reached. (Line 80 would also index the list that `random.sample` returns as if it were a dictionary.) Neither failure is modelled.
- Ppo.PpoAgent.Train: line 76's `random.shuffle` reorders `train_data` in place once per epoch. The model keeps `trainData` unchanged, so it captures the contents, which a shuffle preserves, but not the new order.
- The entropy term (line 97) applies `torch.log` to a float. It is an opaque real input.
- `policy_probs.index(a_t)` (lines 46, 81) returns a list position, not a probability. The old and new policy probabilities are given reals.
- `optimizer.zero_gradient`, `optimizer.backward` and `optimizer.update` (lines 72, 102-103) belong to a gradient-descent library. `Train` returns the arguments passed to `backward` instead.
- Floating point: all arithmetic is exact over `real`. There is no rounding, overflow, NaN or infinity.
- The counts `iterations`, `epochs`, `mini_batch_size` and `max_trajectory_length` are `nat`. Python's behaviour for negative counts (an empty `range`) is not modelled.
- Ppo.PpoAgent.GenerateSamples: requires one episode per iteration, each of exactly `max_trajectory_length` steps. These are what the agent's own loops draw, so no other input can arise.
- Ppo.PpoAgent.Train: requires one batch per epoch, each of exactly `mini_batch_size` draws, for the same reason.

## Findings

| source | as written | input that shows it | evidently intended | confidence | as-written member | corrected member |
|---|---|---|---|---|---|---|
| rl/ppo.py:57 | the backward sweep iterates `range(len(recieved_rewards), 0, -1)`, the indices n, n-1, ..., 1 | any trajectory with at least one step: the first iteration reads `recieved_rewards[n]` (line 58), which raises IndexError, and index 0 is never labelled | the indices n-1, n-2, ..., 0, which label every record backwards from the last step | not executed | Trajectory.LiteralSweepFails | Trajectory.LabelTrajectory |
