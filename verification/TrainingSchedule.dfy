/**
  The discrete schedule of a training run: which samples every batch of every epoch visits, and
  how many optimizer steps there are.
 */
module TrainingSchedule {
  import opened Shuffle

  const MAXIMUM_TRAINING_STEPS: int := 1_000_000

  datatype Outcome =
    | Trained(steps: nat, epochs: seq<seq<seq<nat>>>)
    | ZeroDivision
    | BudgetExceeded
      /** No epoch ran, so the trace has no last record. */
    | EmptyTrace

  /** n / b rounded up, for any nonzero b. */
  function Ceiling(n: int, b: int): int
    requires b != 0
  {
    if b > 0 then (n + b - 1) / b else -(n / -b)
  }

  function Flatten(batches: seq<seq<nat>>): seq<nat> {
    if |batches| == 0 then [] else Flatten(batches[..|batches| - 1]) + batches[|batches| - 1]
  }

  function Min(a: int, b: int): int { if a <= b then a else b }

  /** Batch i is the i-th slice of the permutation. */
  ghost predicate IsSlice(batches: seq<seq<nat>>, permutation: seq<nat>, size: nat, i: nat)
    requires i < |batches|
  {
    && 0 <= i * size < |permutation|
    && batches[i] == permutation[i * size..Min((i + 1) * size, |permutation|)]
  }

  /** The batches of one epoch: consecutive slices of the permutation, all full but perhaps the last,
      which together are the whole of it. */
  ghost predicate Covers(batches: seq<seq<nat>>, permutation: seq<nat>, size: nat) {
    && Flatten(batches) == permutation
    && (forall i :: 0 <= i < |batches| ==> 0 < |batches[i]| <= size)
    && (forall i :: 0 <= i < |batches| ==> IsSlice(batches, permutation, size, i))
  }

  /** Slices of `size` from the permutation; the last may be shorter. */
  method Batches(permutation: seq<nat>, size: nat) returns (batches: seq<seq<nat>>)
    requires size >= 1
    ensures Covers(batches, permutation, size)
    ensures |batches| == Ceiling(|permutation|, size)
  {
    hide Ceiling, Total, Covered;
    batches := [];
    var offset := 0;
    TotalStep(size, 0);
    CoveredNothing(permutation, size);
    while offset < |permutation|
      invariant 0 <= offset && offset == Total(size, |batches|)
      invariant |batches| > 0 ==> offset - size < |permutation|
      invariant |batches| == 0 ==> offset == 0
      invariant Covered(batches, permutation, size)
      decreases |permutation| - offset
    {
      var end := if offset + size < |permutation| then offset + size else |permutation|;
      CoveredMore(batches, permutation, size);
      TotalStep(size, |batches|);
      batches := batches + [permutation[offset..end]];
      offset := offset + size;
    }
    CeilingIs(|permutation|, size, |batches|);
    CoveredAll(batches, permutation, size);
  }

  /** The batches so far: slices of what lies before the next offset. */
  ghost predicate Covered(batches: seq<seq<nat>>, permutation: seq<nat>, size: nat) {
    && Total(size, |batches|) >= 0
    && Flatten(batches) == permutation[..Min(Total(size, |batches|), |permutation|)]
    && (forall i :: 0 <= i < |batches| ==> 0 < |batches[i]| <= size)
    && (forall i :: 0 <= i < |batches| ==> IsSlice(batches, permutation, size, i))
  }

  lemma CoveredNothing(permutation: seq<nat>, size: nat)
    ensures Covered([], permutation, size)
  {
    TotalStep(size, 0);
  }

  lemma CoveredMore(batches: seq<seq<nat>>, permutation: seq<nat>, size: nat)
    requires Covered(batches, permutation, size) && size >= 1 && Total(size, |batches|) < |permutation|
    ensures var offset := Total(size, |batches|);
            Covered(batches + [permutation[offset..Min(offset + size, |permutation|)]], permutation, size)
  {
    hide Total;
    var offset, k := Total(size, |batches|), |batches|;
    var end := Min(offset + size, |permutation|);
    var longer := batches + [permutation[offset..end]];
    TotalStep(size, k);
    TotalIs(size, k);
    TotalIs(size, k + 1);
    assert longer[..k] == batches;
    assert permutation[..offset] + permutation[offset..end] == permutation[..end];
    forall i | 0 <= i < |longer| ensures IsSlice(longer, permutation, size, i) {
      if i < k {
        assert IsSlice(batches, permutation, size, i);
      }
    }
  }

  lemma CoveredAll(batches: seq<seq<nat>>, permutation: seq<nat>, size: nat)
    requires Covered(batches, permutation, size) && Total(size, |batches|) >= |permutation|
    ensures Covers(batches, permutation, size)
  {
    assert permutation[..|permutation|] == permutation;
  }

  lemma TotalIs(size: int, k: int)
    ensures Total(size, k) == k * size
  {
  }

  lemma CeilingIs(n: nat, size: nat, k: nat)
    requires size >= 1 && n <= Total(size, k) && (k > 0 ==> Total(size, k) - size < n) && (k == 0 ==> n == 0)
    ensures k == Ceiling(n, size)
  {
    hide Total;
    TotalStep(size, 0);
    QuotientIs(n + size - 1, size, k, n + size - 1 - Total(size, k));
  }

  lemma QuotientIs(x: int, d: int, q: int, r: int)
    requires d > 0 && x == Total(d, q) + r && 0 <= r < d
    ensures x / d == q
  {
    var y := x / d;
    assert x == y * d + x % d;
    Multiple(y - q, d);
    assert (y - q) * d == y * d - d * q;
  }

  lemma Multiple(k: int, d: int)
    requires d > 0
    ensures k >= 1 ==> k * d >= d
    ensures k <= -1 ==> k * d <= -d
  {
  }

  /** Steps of a number of epochs. */
  function Total(perEpoch: int, epochs: int): int {
    perEpoch * epochs
  }

  lemma TotalStep(perEpoch: int, epochs: int)
    ensures Total(perEpoch, epochs + 1) == Total(perEpoch, epochs) + perEpoch
    ensures Total(perEpoch, 0) == 0
  {
  }

  /** The budget test and the nested epoch and batch loops.  With a positive batch size every epoch
      visits every sample exactly once and the step count is ceil(n / batch) * epochs; the worker
      does not check the size, and with a negative one it trains on nothing. */
  method Train(samples: nat, batchSize: int, epochs: int, draw: (int, nat) -> nat) returns (r: Outcome)
    ensures r == ZeroDivision <==> batchSize == 0 || (batchSize > 0 && samples == 0)
    ensures r.Trained? ==> epochs >= 1 && |r.epochs| == epochs
    ensures r.Trained? && batchSize >= 1 ==>
      var size := if batchSize < samples then batchSize else samples;
      && r.steps == Total(Ceiling(samples, size), epochs) <= 1_000_000
      && forall e :: 0 <= e < epochs ==> EpochComplete(r.epochs[e], samples, size, draw, e + 1)
    ensures r.Trained? && batchSize < 0 ==> r.steps == 0
    ensures r == BudgetExceeded <==>
      var size := if batchSize < samples then batchSize else samples;
      size != 0 && Total(Ceiling(samples, size), epochs) > 1_000_000
    ensures r == EmptyTrace ==> epochs < 1
  {
    hide Ceiling, Total, EpochComplete, IsPermutation;
    var size := if batchSize < samples then batchSize else samples;
    if size == 0 {
      return ZeroDivision;
    }
    var stepsPerEpoch := Ceiling(samples, size);
    var totalSteps := Total(stepsPerEpoch, epochs);
    if totalSteps > MAXIMUM_TRAINING_STEPS {
      return BudgetExceeded;
    }
    var steps, schedule := RunEpochs(samples, size, epochs, draw);
    if epochs < 1 {
      return EmptyTrace;
    }
    r := Trained(steps, schedule);
  }

  lemma Complete(batches: seq<seq<nat>>, permutation: seq<nat>, size: nat, draw: (int, nat) -> nat, epoch: int)
    requires size >= 1 && Covers(batches, permutation, size) && IsPermutation(permutation)
    requires |batches| == Ceiling(|permutation|, size) && permutation == Order(|permutation|, draw, epoch)
    ensures EpochComplete(batches, |permutation|, size, draw, epoch)
  {
    hide Order, Covers, Ceiling, IsPermutation;
    assert Flatten(batches) == permutation by { FlattensTo(batches, permutation, size); }
  }

  lemma FlattensTo(batches: seq<seq<nat>>, permutation: seq<nat>, size: nat)
    requires Covers(batches, permutation, size)
    ensures Flatten(batches) == permutation
  {
  }

  /** The epoch loop; a negative size makes every inner range empty. */
  method RunEpochs(samples: nat, size: int, epochs: int, draw: (int, nat) -> nat)
    returns (steps: nat, schedule: seq<seq<seq<nat>>>)
    requires size != 0
    ensures |schedule| == if epochs < 1 then 0 else epochs
    ensures size > 0 && epochs >= 1 ==> steps == Total(Ceiling(samples, size), epochs)
    ensures size > 0 ==> forall e :: 0 <= e < |schedule| ==> EpochComplete(schedule[e], samples, size, draw, e + 1)
    ensures size < 0 ==> steps == 0
  {
    hide Ceiling, Total, EpochComplete, IsPermutation;
    ghost var perEpoch := Ceiling(samples, size);
    TotalStep(perEpoch, 0);
    steps, schedule := 0, [];
    var epoch := 1;
    while epoch <= epochs
      invariant |schedule| == epoch - 1 && (epochs >= 1 ==> epoch <= epochs + 1) && (epochs < 1 ==> epoch == 1)
      invariant size > 0 ==> steps == Total(perEpoch, epoch - 1)
      invariant size < 0 ==> steps == 0
      invariant size > 0 ==> forall e :: 0 <= e < |schedule| ==> EpochComplete(schedule[e], samples, size, draw, e + 1)
    {
      var batches: seq<seq<nat>> := [];
      if size > 0 {
        var permutation := DeterministicPermutation(samples, DrawsOf(draw, epoch));
        batches := Batches(permutation, size);
        assert EpochComplete(batches, samples, size, draw, epoch) by {
          Complete(batches, permutation, size, draw, epoch);
        }
        TotalStep(perEpoch, epoch - 1);
      }
      steps := steps + |batches|;
      schedule := schedule + [batches];
      epoch := epoch + 1;
    }
  }

  /** The draws of one epoch. */
  function DrawsOf(draw: (int, nat) -> nat, epoch: int): nat -> nat {
    i => draw(epoch, i)
  }

  /** The order in which an epoch visits the samples: the shuffle its own draws choose. */
  function Order(samples: nat, draw: (int, nat) -> nat, epoch: int): seq<nat> {
    Shuffled(Identity(samples), Choices(samples, DrawsOf(draw, epoch)), samples)
  }

  /** Epoch number `epoch`: its shuffle, which visits every sample exactly once, cut into slices of
      `size`, as many as rounding up gives. */
  ghost predicate EpochComplete(batches: seq<seq<nat>>, samples: nat, size: int, draw: (int, nat) -> nat, epoch: int)
    requires size > 0
  {
    && Covers(batches, Order(samples, draw, epoch), size)
    && IsPermutation(Flatten(batches)) && |Flatten(batches)| == samples
    && |batches| == Ceiling(samples, size)
  }
}
