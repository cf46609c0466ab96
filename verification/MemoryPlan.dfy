/**
  The integer GPU memory plan: the estimated peak of a training run and when a plan is accepted.
 */
module MemoryPlan {

  import opened TensorBundle

  const INT64_BYTES: nat := 8
  const MIB: nat := 1_048_576
  const CUDA_RUNTIME_RESERVE: nat := 512 * MIB
  const UNALLOCATED_HEADROOM: nat := 1024 * MIB
  const FREE_HEADROOM: nat := 512 * MIB
  const PARAMETER_STATE_MULTIPLIER: nat := 12
  const WORKSPACE_TENSOR_MULTIPLIER: nat := 8

  datatype Run = Run(model: Model, sampleCount: nat, featureCount: nat, batchSize: int)

  /** What nvidia-smi reported, in MiB. */
  datatype Device = Device(totalMiB: int, freeMiB: int)

  function UnitSum(layers: seq<Layer>, k: nat): int
    requires k <= |layers|
  {
    if k == 0 then 0 else UnitSum(layers, k - 1) + layers[k - 1].outputUnits
  }

  function Max(a: int, b: int): int { if a <= b then b else a }

  function Min(a: int, b: int): int { if a <= b then a else b }

  function Multiply(a: int, b: int): int { a * b }

  /** Bytes one sample occupies while it passes through every layer. */
  function WorkspacePerSample(m: Model): int {
    (m.inputFeatureCount + UnitSum(m.layers, |m.layers|) * WORKSPACE_TENSOR_MULTIPLIER) * FLOAT32_BYTES
  }

  function DatasetResident(r: Run): int {
    Multiply(r.sampleCount, r.featureCount) * FLOAT32_BYTES + r.sampleCount * INT64_BYTES + r.sampleCount * INT64_BYTES
  }

  function FullEvaluation(r: Run): int { Multiply(r.sampleCount, WorkspacePerSample(r.model)) }

  function TrainingBatch(r: Run): int {
    var batch := Min(r.batchSize, r.sampleCount);
    Multiply(batch, WorkspacePerSample(r.model)) + batch * INT64_BYTES * 2
  }

  function Subtotal(r: Run): int {
    DatasetResident(r) + r.model.parameterCount * FLOAT32_BYTES * PARAMETER_STATE_MULTIPLIER
    + Max(FullEvaluation(r), TrainingBatch(r)) + CUDA_RUNTIME_RESERVE
  }

  function EstimatedPeak(r: Run): int { Subtotal(r) + (Subtotal(r) + 3) / 4 }

  /** The capacity test: the peak against three quarters of the device and both headrooms. */
  predicate Accepted(r: Run, d: Device) {
    && d.totalMiB >= 256 && 0 <= d.freeMiB <= d.totalMiB
    && var total, free := d.totalMiB * MIB, d.freeMiB * MIB;
       EstimatedPeak(r) <= Min(total * 3 / 4, Min(Max(0, total - UNALLOCATED_HEADROOM), Max(0, free - FREE_HEADROOM)))
  }

  lemma MultiplyMonotone(a: int, b: int, c: int, d: int)
    requires a <= c && 0 <= b <= d && 0 <= c
    ensures Multiply(a, b) <= Multiply(c, d)
    ensures Multiply(c, d) >= 0
  {
    assert (c - a) * b >= 0;
    assert c * (d - b) >= 0;
  }

  /** Every layer after the first is as wide as the one before it, so widths decide all shapes. */
  lemma {:induction false} UnitsAndParametersGrow(a: Model, b: Model, k: nat)
    requires IsValid(a) && IsValid(b) && k <= |a.layers| == |b.layers|
    requires 0 <= a.inputFeatureCount
    requires forall i :: 0 <= i <= |a.layers| ==> Width(a, i) <= Width(b, i)
    ensures 0 <= UnitSum(a.layers, k) <= UnitSum(b.layers, k)
    ensures ParameterTotal(a.layers, k) <= ParameterTotal(b.layers, k)
  {
    hide IsValid;
    if k > 0 {
      UnitsAndParametersGrow(a, b, k - 1);
      assert Width(a, k - 1) <= Width(b, k - 1) && Width(a, k) <= Width(b, k) && Width(a, 0) <= Width(b, 0);
      LayerShape(a, k - 1);
      LayerShape(b, k - 1);
      MultiplyMonotone(a.layers[k - 1].outputUnits, a.layers[k - 1].inputUnits,
                       b.layers[k - 1].outputUnits, b.layers[k - 1].inputUnits);
    }
  }

  lemma LayerShape(m: Model, i: nat)
    requires IsValid(m) && i < |m.layers| && 0 <= m.inputFeatureCount
    ensures m.layers[i].inputUnits == Width(m, i) >= 0 && m.layers[i].outputUnits >= 1
  {
    assert LayerFits(m.layers, i, Width(m, i));
    if i > 0 {
      assert LayerFits(m.layers, i - 1, Width(m, i - 1));
    }
  }

  /** No run that is at least as large in samples, features, layer widths and batch size has a
      smaller estimated peak. */
  lemma PeakGrows(a: Run, b: Run)
    requires IsValid(a.model) && IsValid(b.model) && |a.model.layers| == |b.model.layers|
    requires 0 <= a.model.inputFeatureCount
    requires a.sampleCount <= b.sampleCount && a.featureCount <= b.featureCount && a.batchSize <= b.batchSize
    requires forall i :: 0 <= i <= |a.model.layers| ==> Width(a.model, i) <= Width(b.model, i)
    ensures EstimatedPeak(a) <= EstimatedPeak(b)
  {
    hide Multiply, UnitSum, ParameterTotal;
    var n := |a.model.layers|;
    UnitsAndParametersGrow(a.model, b.model, n);
    assert Width(a.model, 0) <= Width(b.model, 0);
    var u, v := WorkspacePerSample(a.model), WorkspacePerSample(b.model);
    MultiplyMonotone(a.sampleCount, a.featureCount, b.sampleCount, b.featureCount);
    MultiplyMonotone(a.sampleCount, u, b.sampleCount, v);
    BatchGrows(a, b, u, v);
  }

  /** A batch is never larger than the data, and a negative batch size costs less than evaluation. */
  lemma BatchGrows(a: Run, b: Run, u: int, v: int)
    requires a.sampleCount <= b.sampleCount && a.batchSize <= b.batchSize
    requires u == WorkspacePerSample(a.model) && v == WorkspacePerSample(b.model) && 0 <= u <= v
    ensures TrainingBatch(a) <= Max(FullEvaluation(b), TrainingBatch(b))
  {
    hide Multiply, WorkspacePerSample;
    var x, y := Min(a.batchSize, a.sampleCount), Min(b.batchSize, b.sampleCount);
    if y >= 0 {
      MultiplyMonotone(x, u, y, v);
    } else {
      MultiplyMonotone(x, u, b.sampleCount, v);
    }
  }

  /** Acceptance without the rounding: exactly three linear bounds on the subtotal before the
      allocator reserve. The floor of three quarters and the ceiling of the reserve lose nothing,
      since memory is reported in whole MiB. */
  lemma AcceptedIff(r: Run, d: Device)
    requires d.totalMiB >= 256 && 0 <= d.freeMiB <= d.totalMiB && IsValid(r.model) && 0 <= r.model.inputFeatureCount
    ensures Accepted(r, d) <==>
            && 5 * Subtotal(r) <= 3 * d.totalMiB * 1_048_576
            && 5 * Subtotal(r) <= 4 * (d.totalMiB - 1024) * 1_048_576
            && 5 * Subtotal(r) <= 4 * (d.freeMiB - 512) * 1_048_576
    ensures Accepted(r, d) ==>
            && EstimatedPeak(r) + 1024 * 1_048_576 <= d.totalMiB * 1_048_576
            && EstimatedPeak(r) + 512 * 1_048_576 <= d.freeMiB * 1_048_576
  {
    SubtotalPositive(r);
    var s := Subtotal(r);
    hide Subtotal;
    assert d.totalMiB * MIB * 3 / 4 == 3 * d.totalMiB * (MIB / 4);
  }

  lemma SubtotalPositive(r: Run)
    requires IsValid(r.model) && 0 <= r.model.inputFeatureCount
    ensures Subtotal(r) >= CUDA_RUNTIME_RESERVE
  {
    hide Multiply, UnitSum, ParameterTotal;
    UnitsAndParametersGrow(r.model, r.model, |r.model.layers|);
    MultiplyMonotone(r.sampleCount, r.featureCount, r.sampleCount, r.featureCount);
    MultiplyMonotone(r.sampleCount, WorkspacePerSample(r.model), r.sampleCount, WorkspacePerSample(r.model));
  }

  // ----- What things cost.

  /** Bytes of one sample in a pass: four for each input feature, thirty-two for each unit. */
  function PassBytes(m: Model): int {
    4 * m.inputFeatureCount + 32 * UnitSum(m.layers, |m.layers|)
  }

  /** The subtotal, term by term: each sample's features and its label and index, the parameter
      state of twelve copies of the bundle, the larger of a full evaluation and a training batch,
      and 512 MiB. */
  lemma CostIs(r: Run)
    ensures var n, pass, batch := r.sampleCount, PassBytes(r.model), Min(r.batchSize, r.sampleCount);
            Subtotal(r) == n * (4 * r.featureCount + 16) + 12 * (4 * r.model.parameterCount)
                           + Max(n * pass, batch * (pass + 16)) + 512 * 1_048_576
  {
    hide UnitSum;
    assert WorkspacePerSample(r.model) == PassBytes(r.model);
    hide PassBytes, WorkspacePerSample;
    var n, pass, batch := r.sampleCount, PassBytes(r.model), Min(r.batchSize, r.sampleCount);
    assert n * (4 * r.featureCount + 16) == 4 * (n * r.featureCount) + 16 * n;
    assert batch * (pass + 16) == batch * pass + 16 * batch;
  }

  /** One more sample costs its features, sixteen bytes and a pass while evaluation is the larger
      use, and sixteen bytes more while every sample fits in one batch. */
  lemma OneMoreSample(r: Run)
    requires IsValid(r.model) && 0 <= r.model.inputFeatureCount
    ensures var more, pass := r.(sampleCount := r.sampleCount + 1), PassBytes(r.model);
            && (r.sampleCount < r.batchSize ==>
                  Subtotal(more) - Subtotal(r) == 4 * r.featureCount + 16 + pass + 16)
            && (0 <= r.batchSize <= r.sampleCount && r.batchSize * (pass + 16) <= r.sampleCount * pass ==>
                  Subtotal(more) - Subtotal(r) == 4 * r.featureCount + 16 + pass)
  {
    UnitsAndParametersGrow(r.model, r.model, |r.model.layers|);
    assert PassBytes(r.model) >= 0;
    hide UnitSum, Subtotal, PassBytes, IsValid;
    var n, pass := r.sampleCount, PassBytes(r.model);
    CostIs(r);
    CostIs(r.(sampleCount := n + 1));
    OneMore(n, 4 * r.featureCount + 16);
    LargerUse(n, pass, r.batchSize);
  }

  /** How the larger of evaluation and training grows with the samples. */
  lemma LargerUse(n: nat, pass: nat, batchSize: int)
    ensures var now := Max(n * pass, Min(batchSize, n) * (pass + 16));
            var more := Max((n + 1) * pass, Min(batchSize, n + 1) * (pass + 16));
            && (n < batchSize ==> more - now == pass + 16)
            && (batchSize <= n && batchSize * (pass + 16) <= n * pass ==> more - now == pass)
  {
    OneMore(n, pass);
    OneMore(n, pass + 16);
    assert n * (pass + 16) == n * pass + 16 * n;
  }

  lemma OneMore(n: int, cost: int)
    ensures (n + 1) * cost == n * cost + cost
  {
  }

  /** The parameter state is twelve times the bundle that training returns, unless a layer id repeats. */
  lemma ParameterStateIsTwelveBundles(r: Run, parameters: map<string, seq<TensorBundle.Byte>>)
    requires IsValid(r.model) && r.model.inputFeatureCount >= 0 && HasShapes(parameters, r.model)
    ensures var bundle := Sum(map name | name in parameters :: |parameters[name]|);
            var without := r.(model := r.model.(parameterCount := 0));
            Subtotal(r) - Subtotal(without) == 12 * bundle <==> DistinctIds(r.model.layers, |r.model.layers|)
  {
    hide Sum, Subtotal, DistinctIds, HasShapes, UnitSum, IsValid;
    BundleSizeIff(r.model, parameters);
    CostIs(r);
    CostIs(r.(model := r.model.(parameterCount := 0)));
  }
}
