/** The `PPO` object: its configuration, the `train_data` list it grows in
    `generate_samples`, and the loss values `train` hands to the optimizer.
    The collaborators (environment, networks, optimizer, random sampling)
    are not modelled; their outputs are inputs here. */
module Ppo {
  import opened Prelude
  import opened Trajectory
  import opened Loss

  /** The labelled records of one episode: its transitions in step order,
      with targets and advantages from the backward sweep. */
  function EpisodeRecords<S, A>(episode: Episode<S, A>, gamma: real): seq<Transition<S, A>>
  {
    Labelled(Unlabelled(episode.initialState, episode.steps), gamma)
  }

  /** Everything `generate_samples` appends for the given episodes: each
      episode's records, labelled by the backward sweep, in episode order. */
  function Collected<S, A>(episodes: seq<Episode<S, A>>, gamma: real): seq<Transition<S, A>>
    decreases |episodes|
  {
    if episodes == [] then []
    else
      Collected(episodes[..|episodes| - 1], gamma) + EpisodeRecords(episodes[|episodes| - 1], gamma)
  }

  /** With `len` steps per episode, the episodes contribute exactly
      `|episodes| * len` records. */
  lemma {:induction false} CollectedLength<S, A>(episodes: seq<Episode<S, A>>, gamma: real, len: nat)
    requires forall e :: e in episodes ==> |e.steps| == len
    ensures |Collected(episodes, gamma)| == |episodes| * len
    decreases |episodes|
  {
    if episodes != [] {
      var front := episodes[..|episodes| - 1];
      var last := episodes[|episodes| - 1];
      assert forall e :: e in front ==> e in episodes;
      CollectedLength(front, gamma, len);
      assert |EpisodeRecords(last, gamma)| == len;
      MulStep(|front|, len);
    }
  }

  lemma MulStep(m: nat, len: nat)
    ensures (m + 1) * len == m * len + len
  {
  }

  /** One more episode appends its own labelled records and nothing else. */
  lemma CollectedStep<S, A>(episodes: seq<Episode<S, A>>, e: nat, gamma: real)
    requires e < |episodes|
    ensures Collected(episodes[..e + 1], gamma) ==
      Collected(episodes[..e], gamma) + EpisodeRecords(episodes[e], gamma)
  {
    assert episodes[..e + 1][..e] == episodes[..e];
  }

  /** Every collected record carries both labels, with the advantage equal
      to the target minus the value estimate. */
  lemma {:induction false} CollectedLabelled<S, A>(episodes: seq<Episode<S, A>>, gamma: real)
    ensures forall k :: 0 <= k < |Collected(episodes, gamma)| ==> IsLabelled(Collected(episodes, gamma)[k])
    decreases |episodes|
  {
    if episodes != [] {
      CollectedLabelled(episodes[..|episodes| - 1], gamma);
    }
  }

  /** Appending labelled records to labelled records keeps every record labelled. */
  lemma AppendLabelled<S, A>(done: seq<Transition<S, A>>, more: seq<Transition<S, A>>)
    requires forall x :: x in done ==> IsLabelled(x)
    requires forall k :: 0 <= k < |more| ==> IsLabelled(more[k])
    ensures forall x :: x in done + more ==> IsLabelled(x)
  {
    forall x | x in done + more
      ensures IsLabelled(x)
    {
      var k :| 0 <= k < |done + more| && (done + more)[k] == x;
      if k < |done| {
        assert done[k] in done;
      } else {
        assert more[k - |done|] == x;
      }
    }
  }

  /** The body of the outer loop of `generate_samples`: collect one
      episode's records, then run the backward sweep over them in place. */
  method CollectEpisode<S, A>(episode: Episode<S, A>, gamma: real) returns (sample: seq<Transition<S, A>>)
    ensures sample == EpisodeRecords(episode, gamma)
  {
    var records, rewards := CollectTrajectory(episode.initialState, episode.steps);
    var trajectorySample := new Transition<S, A>[|records|](k requires 0 <= k < |records| => records[k]);
    assert trajectorySample[..] == records;
    LabelTrajectory(trajectorySample, rewards, gamma);
    sample := trajectorySample[..];
  }

  class PpoAgent<S, A> {
    const maxTrajectoryLength: nat
    const discountFactor: real
    const iterations: nat
    const epochs: nat
    const miniBatchSize: nat
    const eta: real
    const coeff1: real
    const coeff2: real

    /** `self.train_data`: every labelled record collected so far. */
    var trainData: seq<Transition<S, A>>

    /** Every record stored in `train_data` has been through the sweep. */
    ghost predicate Valid()
      reads this
    {
      forall x :: x in trainData ==> IsLabelled(x)
    }

    /** `__init__`: the configuration, and an empty `train_data`. */
    constructor (maxTrajectoryLength: nat, discountFactor: real, iterations: nat, epochs: nat,
                 miniBatchSize: nat, eta: real, coeff1: real, coeff2: real)
      ensures this.maxTrajectoryLength == maxTrajectoryLength && this.discountFactor == discountFactor
      ensures this.iterations == iterations && this.epochs == epochs && this.miniBatchSize == miniBatchSize
      ensures this.eta == eta && this.coeff1 == coeff1 && this.coeff2 == coeff2
      ensures trainData == []
      ensures Valid()
    {
      this.maxTrajectoryLength := maxTrajectoryLength;
      this.discountFactor := discountFactor;
      this.iterations := iterations;
      this.epochs := epochs;
      this.miniBatchSize := miniBatchSize;
      this.eta := eta;
      this.coeff1 := coeff1;
      this.coeff2 := coeff2;
      trainData := [];
    }

    /** `generate_samples`: `iterations` episodes of exactly
        `maxTrajectoryLength` steps each (there is no early termination),
        each collected, swept backwards and appended to `train_data`.
        `episodes[e]` is what the collaborators returned during iteration e. */
    method GenerateSamples(episodes: seq<Episode<S, A>>)
      requires Valid()
      requires |episodes| == iterations
      requires forall e :: e in episodes ==> |e.steps| == maxTrajectoryLength
      modifies this
      ensures trainData == old(trainData) + Collected(episodes, discountFactor)
      ensures |trainData| == |old(trainData)| + iterations * maxTrajectoryLength
      ensures trainData[..|old(trainData)|] == old(trainData)
      ensures Valid()
    {
      ghost var start := trainData;
      var e := 0;
      while e < |episodes|
        invariant 0 <= e <= |episodes|
        invariant trainData == start + Collected(episodes[..e], discountFactor)
      {
        var trajectorySample := CollectEpisode(episodes[e], discountFactor);
        CollectedStep(episodes, e, discountFactor);
        assert trainData + trajectorySample == start + Collected(episodes[..e + 1], discountFactor);
        trainData := trainData + trajectorySample;
        e := e + 1;
      }
      assert episodes[..e] == episodes;
      CollectedLength(episodes, discountFactor, maxTrajectoryLength);
      assert (start + Collected(episodes, discountFactor))[..|start|] == start;
      CollectedLabelled(episodes, discountFactor);
      AppendLabelled(start, Collected(episodes, discountFactor));
    }

    /** `train`: for each epoch, the mini-batch aggregate loss handed to
        `optimizer.backward`. `batches[e]` holds the `miniBatchSize` draws of
        epoch e, each made from a record of `train_data`. The first error
        raised stops training; since every stored record is labelled, that
        error can only be a division by zero. */
    method Train(batches: seq<seq<Sample<S, A>>>) returns (r: Result<seq<real>>)
      requires Valid()
      requires |batches| == epochs
      requires forall b :: b in batches ==> |b| == miniBatchSize
      requires forall e, k :: 0 <= e < |batches| && 0 <= k < |batches[e]| ==> batches[e][k].record in trainData
      ensures r.Ok? <==> forall e :: 0 <= e < |batches| ==> MiniBatchAggregate(batches[e], eta, coeff1, coeff2).Ok?
      ensures r.Ok? <==>
        forall e :: 0 <= e < |batches| ==>
          |batches[e]| > 0 && forall k :: 0 <= k < |batches[e]| ==> batches[e][k].record.oldPolicyProb != 0.0
      ensures r.Ok? ==> |r.value| == |batches|
      ensures r.Ok? ==>
        forall e :: 0 <= e < |batches| ==> MiniBatchAggregate(batches[e], eta, coeff1, coeff2) == Ok(r.value[e])
      ensures r.Err? ==>
        exists e :: 0 <= e < |batches| && MiniBatchAggregate(batches[e], eta, coeff1, coeff2) == Err(r.error) &&
          forall e' :: 0 <= e' < e ==> MiniBatchAggregate(batches[e'], eta, coeff1, coeff2).Ok?
      ensures r.Err? ==> r.error == ZeroDivisionError
    {
      forall e | 0 <= e < |batches|
        ensures MiniBatchAggregate(batches[e], eta, coeff1, coeff2).Ok? <==>
          |batches[e]| > 0 && forall k :: 0 <= k < |batches[e]| ==> batches[e][k].record.oldPolicyProb != 0.0
        ensures MiniBatchAggregate(batches[e], eta, coeff1, coeff2).Err? ==>
          MiniBatchAggregate(batches[e], eta, coeff1, coeff2).error == ZeroDivisionError
      {
        assert forall k :: 0 <= k < |batches[e]| ==> batches[e][k].record in trainData;
        AggregateOfLabelled(batches[e], eta, coeff1, coeff2);
      }
      var backwardArgs: seq<real> := [];
      var e := 0;
      while e < |batches|
        invariant 0 <= e <= |batches|
        invariant |backwardArgs| == e
        invariant forall e' :: 0 <= e' < e ==> MiniBatchAggregate(batches[e'], eta, coeff1, coeff2) == Ok(backwardArgs[e'])
      {
        var loss := MiniBatchLoss(batches[e], eta, coeff1, coeff2);
        if loss.Err? {
          return Err(loss.error);
        }
        backwardArgs := backwardArgs + [loss.value];
        e := e + 1;
      }
      r := Ok(backwardArgs);
    }
  }
}
