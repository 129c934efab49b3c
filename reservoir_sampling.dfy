/** Reservoir sampling, Algorithm R. The random draw of each step is an explicit
    argument: the i-th value of the stream (counting from 0) comes with a draw r in
    [0, i], and the value is kept exactly when r is below the reservoir capacity. */
module Reservoir {

  function Min(a: nat, b: nat): nat {
    if a <= b then a else b
  }

  /** Draws Algorithm R can make: the draw for the i-th value lies in [0, i]. */
  predicate ValidDraws(draws: seq<nat>) {
    forall i :: 0 <= i < |draws| ==> draws[i] <= i
  }

  /** One `process` step on the reservoir, given `numProcessed` values seen before
      and the draw r. An accepted value is appended while the reservoir is not
      full and otherwise overwrites slot r, which is then always a valid slot. */
  function Step<V>(samples: seq<V>, numToSample: nat, numProcessed: nat, value: V, r: nat): (s: seq<V>)
    requires |samples| == Min(numProcessed, numToSample)
    requires r <= numProcessed
    ensures |s| == Min(numProcessed + 1, numToSample)
  {
    if r < numToSample then
      if numProcessed >= numToSample then samples[r := value] else samples + [value]
    else
      samples
  }

  /** The reservoir after processing `values` with the matching `draws`, starting
      from the empty reservoir of a new sampler. */
  function Sample<V>(numToSample: nat, values: seq<V>, draws: seq<nat>): (s: seq<V>)
    requires |draws| == |values| && ValidDraws(draws)
    ensures |s| == Min(|values|, numToSample)
    decreases |values|
  {
    if values == [] then []
    else
      var n := |values| - 1;
      Step(Sample(numToSample, values[..n], draws[..n]), numToSample, n, values[n], draws[n])
  }

  /** While at most `numToSample` values have been processed, every one was kept,
      in arrival order. */
  lemma {:induction false} SampleWhileFilling<V>(numToSample: nat, values: seq<V>, draws: seq<nat>)
    requires |draws| == |values| && ValidDraws(draws)
    requires |values| <= numToSample
    ensures Sample(numToSample, values, draws) == values
    decreases |values|
  {
    if values != [] {
      var n := |values| - 1;
      SampleWhileFilling(numToSample, values[..n], draws[..n]);
      assert values == values[..n] + [values[n]];
    }
  }

  /** Overwriting one slot trades that slot's value for the new one. */
  lemma OverwriteMultiset<V>(s: seq<V>, r: nat, v: V)
    requires r < |s|
    ensures multiset(s[r := v]) == multiset(s) - multiset{s[r]} + multiset{v}
  {
    assert s == s[..r] + [s[r]] + s[r + 1..];
    assert s[r := v] == s[..r] + [v] + s[r + 1..];
  }

  /** Every sample is a value of the stream, and no occurrence in the stream fills
      more than one slot: the reservoir is a sub-multiset of the stream. */
  lemma {:induction false} SampleFromStream<V>(numToSample: nat, values: seq<V>, draws: seq<nat>)
    requires |draws| == |values| && ValidDraws(draws)
    ensures multiset(Sample(numToSample, values, draws)) <= multiset(values)
    decreases |values|
  {
    if values != [] {
      var n := |values| - 1;
      var prev := Sample(numToSample, values[..n], draws[..n]);
      var r := draws[n];
      SampleFromStream(numToSample, values[..n], draws[..n]);
      assert values == values[..n] + [values[n]];
      assert multiset(values) == multiset(values[..n]) + multiset{values[n]};
      if r < numToSample && n >= numToSample {
        OverwriteMultiset(prev, r, values[n]);
      }
    }
  }

  /** The sampler object: the capacity, the count of values processed and the
      reservoir. The values and draws processed so far are kept as ghost history
      so that the reservoir can be tied to the run that produced it. */
  class ReservoirSampling<V> {
    /** `numToSample()`: the capacity, fixed at construction. */
    const numToSample: nat
    /** `numProcessed()`. */
    var numProcessed: nat
    /** `samples()`, ordered by slot. */
    var samples: seq<V>
    ghost var stream: seq<V>
    ghost var draws: seq<nat>

    ghost predicate Valid()
      reads this
    {
      |stream| == numProcessed && |draws| == numProcessed && ValidDraws(draws) &&
      samples == Sample(numToSample, stream, draws)
    }

    /** `ReservoirSampling(num_to_sample)`: nothing processed, empty reservoir. */
    constructor (numToSample: nat)
      ensures Valid()
      ensures this.numToSample == numToSample && numProcessed == 0 && samples == []
      ensures stream == [] && draws == []
    {
      this.numToSample := numToSample;
      numProcessed := 0;
      samples := [];
      stream := [];
      draws := [];
    }

    /** `process(value)` with the draw r from [0, numProcessed]: keep the value when
        r < numToSample, by appending while the reservoir is not full and by
        overwriting slot r once it is; count the value either way. */
    method Process(value: V, r: nat) returns (accepted: bool)
      requires Valid()
      requires r <= numProcessed
      modifies this
      ensures Valid()
      ensures stream == old(stream) + [value] && draws == old(draws) + [r]
      ensures numProcessed == old(numProcessed) + 1
      ensures accepted <==> r < numToSample
      ensures !accepted ==> samples == old(samples)
      ensures accepted && old(numProcessed) < numToSample ==> samples == old(samples) + [value]
      ensures accepted && old(numProcessed) >= numToSample ==>
        r < |old(samples)| && samples == old(samples)[r := value]
      ensures |samples| == Min(numProcessed, numToSample)
      ensures numProcessed <= numToSample ==> samples == stream
      ensures multiset(samples) <= multiset(stream)
    {
      accepted := r < numToSample;
      if accepted {
        if numProcessed >= numToSample {
          samples := samples[r := value];
        } else {
          samples := samples + [value];
        }
      }
      numProcessed := numProcessed + 1;
      stream := stream + [value];
      draws := draws + [r];
      assert stream[..|stream| - 1] == old(stream);
      assert draws[..|draws| - 1] == old(draws);
      if numProcessed <= numToSample {
        SampleWhileFilling(numToSample, stream, draws);
      }
      SampleFromStream(numToSample, stream, draws);
    }
  }

  /** A sampler of capacity 3 keeps the first three values in arrival order,
      whatever the draws, and counts them. */
  method FirstValuesKept(r1: nat, r2: nat) returns (samples: seq<int>, processed: nat)
    requires r1 <= 1 && r2 <= 2
    ensures samples == [4, 5, 12] && processed == 3
  {
    var sampler := new ReservoirSampling<int>(3);
    var keptFirst := sampler.Process(4, 0);
    var keptSecond := sampler.Process(5, r1);
    var keptThird := sampler.Process(12, r2);
    samples, processed := sampler.samples, sampler.numProcessed;
  }
}
