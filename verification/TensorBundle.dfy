/**
  Parameter counting and the serialized tensor bundle: how many bytes a validated model's
  parameters take, and how the concatenation is cut apart again.
 */
module TensorBundle {

  type Byte = bv8

  datatype Layer = Layer(
    layerId: string, dense: bool, inputUnits: int, useBias: bool, activation: string, outputUnits: int)

  datatype Model = Model(seed: int, inputFeatureCount: int, classCount: int, parameterCount: int, layers: seq<Layer>)

  const MAXIMUM_PARAMETER_COUNT: int := 2_000_000
  const MAXIMUM_OUTPUT_UNITS: int := 1_000_000
  const FLOAT32_BYTES: nat := 4

  // ----- Validation.

  /** Weights and biases of the first k layers. */
  function ParameterTotal(layers: seq<Layer>, k: nat): int
    requires k <= |layers|
  {
    if k == 0 then 0
    else
      ParameterTotal(layers, k - 1) + layers[k - 1].outputUnits * layers[k - 1].inputUnits + layers[k - 1].outputUnits
  }

  predicate LayerFits(layers: seq<Layer>, i: nat, previous: int)
    requires i < |layers|
  {
    var l := layers[i];
    && l.dense && l.inputUnits == previous && l.useBias
    && l.activation == (if i == |layers| - 1 then "identity" else "relu")
    && 1 <= l.outputUnits <= 1_000_000
  }

  function Width(m: Model, i: nat): int
    requires i <= |m.layers|
  {
    if i == 0 then m.inputFeatureCount else m.layers[i - 1].outputUnits
  }

  const SEED_LIMIT: int := 0x1_0000_0000

  ghost predicate IsValid(m: Model) {
    && 0 <= m.seed < 0x1_0000_0000
    && 1 <= m.parameterCount <= 2_000_000
    && 2 <= |m.layers| <= 16
    && (forall i :: 0 <= i < |m.layers| ==> LayerFits(m.layers, i, Width(m, i)))
    && Width(m, |m.layers|) == m.classCount
    && ParameterTotal(m.layers, |m.layers|) == m.parameterCount
  }

  method ValidateModel(m: Model) returns (ok: bool)
    ensures ok <==> IsValid(m)
  {
    if m.seed < 0 || m.seed >= SEED_LIMIT {
      return false;
    }
    if m.parameterCount < 1 || m.parameterCount > MAXIMUM_PARAMETER_COUNT || !(2 <= |m.layers| <= 16) {
      return false;
    }
    var previous, count, index := m.inputFeatureCount, 0, 0;
    while index < |m.layers|
      invariant 0 <= index <= |m.layers|
      invariant previous == Width(m, index) && count == ParameterTotal(m.layers, index)
      invariant forall i :: 0 <= i < index ==> LayerFits(m.layers, i, Width(m, i))
    {
      var layer, final := m.layers[index], index == |m.layers| - 1;
      if !layer.dense || layer.inputUnits != previous || !layer.useBias
         || layer.activation != (if final then "identity" else "relu")
         || !(1 <= layer.outputUnits <= MAXIMUM_OUTPUT_UNITS) {
        return false;
      }
      previous := layer.outputUnits;
      count := count + previous * layer.inputUnits + previous;
      index := index + 1;
    }
    ok := previous == m.classCount && count == m.parameterCount;
  }

  // ----- Parameters by name.

  function WeightName(l: Layer): string { l.layerId + ".weight" }

  function BiasName(l: Layer): string { l.layerId + ".bias" }

  /** The element counts of the named tensors of the first k layers; a repeated id overwrites. */
  function Sizes(layers: seq<Layer>, k: nat): map<string, int>
    requires k <= |layers|
  {
    if k == 0 then map[]
    else
      var l := layers[k - 1];
      Sizes(layers, k - 1)[WeightName(l) := l.outputUnits * l.inputUnits][BiasName(l) := l.outputUnits]
  }

  ghost predicate DistinctIds(layers: seq<Layer>, k: nat)
    requires k <= |layers|
  {
    forall i, j :: 0 <= i < j < k ==> layers[i].layerId != layers[j].layerId
  }

  lemma NamesDiffer(a: Layer, b: Layer)
    ensures WeightName(a) != BiasName(b)
    ensures WeightName(a) == WeightName(b) <==> a.layerId == b.layerId
    ensures BiasName(a) == BiasName(b) <==> a.layerId == b.layerId
  {
    var w, v := WeightName(a), BiasName(b);
    assert w[|w| - 1] == 't' && v[|v| - 1] == 's';
    assert WeightName(a)[..|WeightName(a)| - 7] == a.layerId && WeightName(b)[..|WeightName(b)| - 7] == b.layerId;
    assert BiasName(a)[..|BiasName(a)| - 5] == a.layerId && BiasName(b)[..|BiasName(b)| - 5] == b.layerId;
  }

  /** A layer's names are present exactly when an earlier layer has its id, and then both are. */
  lemma {:induction false} NamesPresent(layers: seq<Layer>, k: nat, l: Layer)
    requires k <= |layers| && forall i :: 0 <= i < k ==> layers[i].outputUnits >= 1
    ensures WeightName(l) in Sizes(layers, k) <==> exists i :: 0 <= i < k && layers[i].layerId == l.layerId
    ensures BiasName(l) in Sizes(layers, k) <==> exists i :: 0 <= i < k && layers[i].layerId == l.layerId
    ensures BiasName(l) in Sizes(layers, k) ==> Sizes(layers, k)[BiasName(l)] >= 1
  {
    hide WeightName, BiasName;
    if k > 0 {
      NamesPresent(layers, k - 1, l);
      NamesDiffer(l, layers[k - 1]);
      NamesDiffer(layers[k - 1], l);
      assert (exists i :: 0 <= i < k && layers[i].layerId == l.layerId)
        <==> layers[k - 1].layerId == l.layerId || exists i :: 0 <= i < k - 1 && layers[i].layerId == l.layerId;
    }
  }

  // ----- Sums over a map.

  ghost function Sum(m: map<string, int>): int
    decreases |m|
  {
    if m == map[] then 0
    else
      var k :| k in m;
      assert (m - {k}).Keys == m.Keys - {k};
      m[k] + Sum(m - {k})
  }

  lemma {:induction false} SumSplits(m: map<string, int>, k: string)
    requires k in m
    ensures Sum(m) == m[k] + Sum(m - {k})
    decreases |m|
  {
    assert (m - {k}).Keys == m.Keys - {k};
    var j :| j in m && Sum(m) == m[j] + Sum(m - {j});
    if j != k {
      assert (m - {j}).Keys == m.Keys - {j};
      SumSplits(m - {j}, k);
      SumSplits(m - {k}, j);
      assert m - {j} - {k} == m - {k} - {j};
    }
  }

  lemma SumUpdate(m: map<string, int>, k: string, v: int)
    ensures Sum(m[k := v]) == Sum(m) + v - (if k in m then m[k] else 0)
  {
    SumSplits(m[k := v], k);
    assert m[k := v] - {k} == m - {k};
    if k in m {
      SumSplits(m, k);
    } else {
      assert m - {k} == m;
    }
  }

  ghost predicate Counted(layers: seq<Layer>, k: nat)
    requires k <= |layers|
  {
    forall i :: 0 <= i < k ==> layers[i].outputUnits >= 1 && layers[i].inputUnits >= 0
  }

  /** The named tensors hold as many elements as the layers count exactly when no id repeats. */
  lemma {:induction false} SumOfSizes(layers: seq<Layer>, k: nat)
    requires k <= |layers| && Counted(layers, k)
    ensures Sum(Sizes(layers, k)) <= ParameterTotal(layers, k)
    ensures Sum(Sizes(layers, k)) == ParameterTotal(layers, k) <==> DistinctIds(layers, k)
    ensures forall name :: name in Sizes(layers, k) ==> Sizes(layers, k)[name] >= 0
  {
    hide WeightName, BiasName, Sum;
    if k == 0 {
      SumEmpty();
    } else {
      SumOfSizes(layers, k - 1);
      var l, m := layers[k - 1], Sizes(layers, k - 1);
      NamesDiffer(l, l);
      NamesPresent(layers, k - 1, l);
      Nonnegative(l.outputUnits, l.inputUnits);
      SumUpdate(m, WeightName(l), l.outputUnits * l.inputUnits);
      SumUpdate(m[WeightName(l) := l.outputUnits * l.inputUnits], BiasName(l), l.outputUnits);
      assert DistinctIds(layers, k) <==>
        DistinctIds(layers, k - 1) && !exists i :: 0 <= i < k - 1 && layers[i].layerId == l.layerId;
    }
  }

  lemma Nonnegative(a: int, b: int)
    requires a >= 0 && b >= 0
    ensures a * b >= 0
  {
  }

  lemma SumEmpty()
    ensures Sum(map[]) == 0
  {
  }

  // ----- The bundle.

  /** Code-point order, as strings are sorted. */
  predicate LessOrEqual(a: string, b: string) {
    if a == "" then true
    else if b == "" then false
    else if a[0] != b[0] then a[0] < b[0]
    else LessOrEqual(a[1..], b[1..])
  }

  lemma {:induction false} OrderIsTotal(a: string, b: string)
    ensures LessOrEqual(a, b) || LessOrEqual(b, a)
    ensures LessOrEqual(a, b) && LessOrEqual(b, a) ==> a == b
  {
    if a != "" && b != "" {
      OrderIsTotal(a[1..], b[1..]);
      assert a == [a[0]] + a[1..] && b == [b[0]] + b[1..];
    }
  }

  lemma {:induction false} OrderIsTransitive(a: string, b: string, c: string)
    requires LessOrEqual(a, b) && LessOrEqual(b, c)
    ensures LessOrEqual(a, c)
  {
    if a != "" && b != "" && c != "" && a[0] == b[0] == c[0] {
      OrderIsTransitive(a[1..], b[1..], c[1..]);
    }
  }

  /** It is the order of the first difference; a prefix comes first. */
  lemma {:induction false} OrderIsLexicographic(a: string, b: string)
    ensures LessOrEqual(a, b) <==>
      a <= b || exists k :: 0 <= k < |a| && k < |b| && a[..k] == b[..k] && a[k] < b[k]
  {
    if a != "" && b != "" && a[0] == b[0] {
      var c, d := a[1..], b[1..];
      assert a == [a[0]] + c && b == [b[0]] + d;
      OrderIsLexicographic(c, d);
      forall k | 0 <= k < |c| && k < |d|
        ensures c[..k] == d[..k] && c[k] < d[k] <==> a[..k + 1] == b[..k + 1] && a[k + 1] < b[k + 1]
      {
        assert a[..k + 1] == [a[0]] + c[..k] && b[..k + 1] == [b[0]] + d[..k];
        assert c[..k] == a[..k + 1][1..] && d[..k] == b[..k + 1][1..];
      }
      forall k | 0 <= k < |a| && k < |b| && a[..k] == b[..k] && a[k] < b[k]
        ensures LessOrEqual(a, b)
      {
        assert c[..k - 1] == d[..k - 1] && c[k - 1] < d[k - 1];
      }
    } else if a != "" && b != "" {
      assert a[..0] == b[..0];
      forall k | 0 < k < |a| && k < |b|
        ensures a[..k] != b[..k]
      {
        assert a[..k][0] != b[..k][0];
      }
    }
  }

  method LeastName(names: set<string>) returns (least: string)
    requires names != {}
    ensures least in names && forall x :: x in names ==> LessOrEqual(least, x)
  {
    hide LessOrEqual;
    least :| least in names;
    OrderIsTotal(least, least);
    var rest := names - {least};
    while rest != {}
      invariant rest <= names && least in names
      invariant forall x :: x in names - rest ==> LessOrEqual(least, x)
      decreases |rest|
    {
      var x :| x in rest;
      OrderIsTotal(least, x);
      OrderIsTotal(x, x);
      if !LessOrEqual(least, x) {
        forall y | y in names - rest ensures LessOrEqual(x, y) {
          OrderIsTransitive(x, least, y);
        }
        least := x;
      }
      rest := rest - {x};
    }
  }

  /** The names in increasing order, each once. */
  ghost predicate IsListing(names: seq<string>, all: set<string>) {
    && (forall x :: x in all <==> x in names)
    && (forall i, j :: 0 <= i < j < |names| ==> names[i] != names[j] && LessOrEqual(names[i], names[j]))
  }

  /** The concatenated tensors of the first k names. */
  function Concatenated(parameters: map<string, seq<Byte>>, names: seq<string>, k: nat): seq<Byte>
    requires k <= |names| && forall i :: 0 <= i < |names| ==> names[i] in parameters
  {
    if k == 0 then [] else Concatenated(parameters, names, k - 1) + parameters[names[k - 1]]
  }

  datatype Descriptor = Descriptor(name: string, byteLength: nat)

  function Offset(descriptors: seq<Descriptor>, k: nat): nat
    requires k <= |descriptors|
  {
    if k == 0 then 0 else Offset(descriptors, k - 1) + descriptors[k - 1].byteLength
  }

  /** Cutting the bundle at the prefix sums of the byte lengths gives each tensor, in name order. */
  ghost predicate CutsApart(bundle: seq<Byte>, descriptors: seq<Descriptor>, parameters: map<string, seq<Byte>>) {
    && Offset(descriptors, |descriptors|) == |bundle|
    && forall i :: 0 <= i < |descriptors| ==> CutAt(bundle, descriptors, parameters, i)
  }

  ghost predicate CutAt(bundle: seq<Byte>, descriptors: seq<Descriptor>, parameters: map<string, seq<Byte>>, i: nat)
    requires i < |descriptors|
  {
    && descriptors[i].name in parameters
    && Offset(descriptors, i) <= Offset(descriptors, i + 1) <= |bundle|
    && bundle[Offset(descriptors, i)..Offset(descriptors, i + 1)] == parameters[descriptors[i].name]
  }

  ghost function NamesOf(descriptors: seq<Descriptor>): (names: seq<string>)
    ensures |names| == |descriptors| && forall i :: 0 <= i < |names| ==> names[i] == descriptors[i].name
  {
    seq(|descriptors|, i requires 0 <= i < |descriptors| => descriptors[i].name)
  }

  ghost predicate Lengths(
    descriptors: seq<Descriptor>, names: seq<string>, parameters: map<string, seq<Byte>>, k: nat)
  {
    && k <= |descriptors| && k <= |names|
    && forall i :: 0 <= i < k ==>
         names[i] in parameters && descriptors[i] == Descriptor(names[i], |parameters[names[i]]|)
  }

  lemma {:induction false} OffsetIsLength(
    descriptors: seq<Descriptor>, names: seq<string>, parameters: map<string, seq<Byte>>, k: nat)
    requires (forall i :: 0 <= i < |names| ==> names[i] in parameters) && Lengths(descriptors, names, parameters, k)
    ensures Offset(descriptors, k) == |Concatenated(parameters, names, k)|
  {
    if k > 0 {
      OffsetIsLength(descriptors, names, parameters, k - 1);
    }
  }

  lemma {:induction false} PrefixStays(parameters: map<string, seq<Byte>>, names: seq<string>, i: nat, k: nat)
    requires i <= k <= |names| && forall j :: 0 <= j < |names| ==> names[j] in parameters
    ensures Concatenated(parameters, names, i) <= Concatenated(parameters, names, k)
  {
    if i < k {
      PrefixStays(parameters, names, i, k - 1);
    }
  }

  method Bundle(parameters: map<string, seq<Byte>>) returns (bundle: seq<Byte>, descriptors: seq<Descriptor>)
    ensures IsListing(NamesOf(descriptors), parameters.Keys)
    ensures CutsApart(bundle, descriptors, parameters)
    ensures |bundle| == Sum(map name | name in parameters :: |parameters[name]|)
  {
    hide LessOrEqual, Sum, IsListing, CutsApart, Concatenated, Among;
    NothingYet(parameters);
    bundle, descriptors := [], [];
    ghost var names: seq<string> := [];
    var rest := parameters.Keys;
    while rest != {}
      invariant rest <= parameters.Keys
      invariant IsListing(names, parameters.Keys - rest)
      invariant forall x, y :: x in names && y in rest ==> LessOrEqual(x, y)
      invariant |descriptors| == |names| && Lengths(descriptors, names, parameters, |names|)
      invariant bundle == Concatenated(parameters, names, |names|)
      decreases |rest|
    {
      var name := LeastName(rest);
      ListingGrows(names, parameters.Keys - rest, name);
      ConcatenatedMore(parameters, names, name);
      bundle := bundle + parameters[name];
      descriptors := descriptors + [Descriptor(name, |parameters[name]|)];
      names := names + [name];
      assert parameters.Keys - (rest - {name}) == parameters.Keys - rest + {name};
      rest := rest - {name};
    }
    assert parameters.Keys - rest == parameters.Keys;
    assert NamesOf(descriptors) == names;
    Recovered(parameters, names, descriptors);
    SumOfListing(parameters, names, |names|);
  }

  lemma NothingYet(parameters: map<string, seq<Byte>>)
    ensures IsListing([], parameters.Keys - parameters.Keys) && Concatenated(parameters, [], 0) == []
  {
  }

  lemma ConcatenatedMore(parameters: map<string, seq<Byte>>, names: seq<string>, name: string)
    requires name in parameters && forall i :: 0 <= i < |names| ==> names[i] in parameters
    ensures Concatenated(parameters, names + [name], |names| + 1)
         == Concatenated(parameters, names, |names|) + parameters[name]
  {
    SamePrefix(parameters, names, names + [name], |names|);
  }

  lemma ListingGrows(names: seq<string>, all: set<string>, name: string)
    requires IsListing(names, all) && name !in all && forall x :: x in names ==> LessOrEqual(x, name)
    ensures IsListing(names + [name], all + {name})
  {
    hide LessOrEqual;
  }

  lemma {:induction false} SamePrefix(parameters: map<string, seq<Byte>>, a: seq<string>, b: seq<string>, k: nat)
    requires k <= |a| && a <= b && forall i :: 0 <= i < |b| ==> b[i] in parameters
    ensures Concatenated(parameters, a, k) == Concatenated(parameters, b, k)
  {
    if k > 0 {
      SamePrefix(parameters, a, b, k - 1);
    }
  }

  lemma Recovered(parameters: map<string, seq<Byte>>, names: seq<string>, descriptors: seq<Descriptor>)
    requires |descriptors| == |names| && Lengths(descriptors, names, parameters, |names|)
    ensures CutsApart(Concatenated(parameters, names, |names|), descriptors, parameters)
  {
    var bundle := Concatenated(parameters, names, |names|);
    OffsetIsLength(descriptors, names, parameters, |names|);
    forall i | 0 <= i < |descriptors| ensures CutAt(bundle, descriptors, parameters, i) {
      OffsetIsLength(descriptors, names, parameters, i);
      OffsetIsLength(descriptors, names, parameters, i + 1);
      PrefixStays(parameters, names, i + 1, |names|);
      var piece := Concatenated(parameters, names, i + 1);
      assert bundle[..|piece|] == piece;
      assert piece[|Concatenated(parameters, names, i)|..] == parameters[names[i]];
    }
  }

  ghost function Among(names: seq<string>): set<string> { set x | x in names }

  /** The concatenation is as long as all tensors together, whatever the order. */
  lemma SumOfListing(parameters: map<string, seq<Byte>>, names: seq<string>, k: nat)
    requires k == |names| && IsListing(names, parameters.Keys)
    ensures |Concatenated(parameters, names, k)| == Sum(map name | name in parameters :: |parameters[name]|)
  {
    var m: map<string, int> := map name | name in parameters :: |parameters[name]|;
    SumOfPrefix(parameters, names, m, k);
    var dropped := m - Among(names[..k]);
    assert dropped == map[];
    SumEmpty();
  }

  lemma {:induction false} SumOfPrefix(
    parameters: map<string, seq<Byte>>, names: seq<string>, m: map<string, int>, k: nat)
    requires k <= |names| && (forall i :: 0 <= i < |names| ==> names[i] in parameters)
    requires forall i, j :: 0 <= i < j < |names| ==> names[i] != names[j]
    requires m == map name | name in parameters :: |parameters[name]|
    ensures Sum(m) == |Concatenated(parameters, names, k)| + Sum(m - Among(names[..k]))
  {
    hide Sum;
    if k == 0 {
      assert m - Among(names[..k]) == m;
    } else {
      SumOfPrefix(parameters, names, m, k - 1);
      var before := m - Among(names[..k - 1]);
      assert names[k - 1] in before;
      SumSplits(before, names[k - 1]);
      assert names[..k] == names[..k - 1] + [names[k - 1]];
      assert before - {names[k - 1]} == m - Among(names[..k]);
    }
  }

  // ----- The bundle of a model.

  /** Parameters with the model's names and shapes, four bytes an element. */
  ghost predicate HasShapes(parameters: map<string, seq<Byte>>, m: Model) {
    var sizes := Sizes(m.layers, |m.layers|);
    && parameters.Keys == sizes.Keys
    && forall name :: name in parameters ==> |parameters[name]| == FLOAT32_BYTES * sizes[name]
  }

  lemma {:induction false} SumScales(a: map<string, int>, b: map<string, int>, factor: int)
    requires a.Keys == b.Keys && forall k :: k in a ==> a[k] == factor * b[k]
    ensures Sum(a) == factor * Sum(b)
    decreases |a|
  {
    hide Sum;
    SumEmpty();
    if a == map[] {
      assert b == map[];
    } else {
      var k :| k in a;
      SumSplits(a, k);
      SumSplits(b, k);
      assert (a - {k}).Keys == a.Keys - {k};
      SumScales(a - {k}, b - {k}, factor);
      Distribute(factor, b[k], Sum(b - {k}));
    }
  }

  lemma Distribute(a: int, b: int, c: int)
    ensures a * (b + c) == a * b + a * c
  {
  }

  /** For a validated model the bundle has 4 * parameterCount bytes exactly when the layer ids are
      pairwise distinct, which validation does not ask. */
  lemma BundleSizeIff(m: Model, parameters: map<string, seq<Byte>>)
    requires IsValid(m) && m.inputFeatureCount >= 0 && HasShapes(parameters, m)
    ensures Sum(map name | name in parameters :: |parameters[name]|) == 4 * m.parameterCount
            <==> DistinctIds(m.layers, |m.layers|)
  {
    hide Sum, Sizes, DistinctIds, ParameterTotal;
    var n, sizes := |m.layers|, Sizes(m.layers, |m.layers|);
    forall i | 0 <= i < n ensures m.layers[i].outputUnits >= 1 && m.layers[i].inputUnits >= 0 {
      assert LayerFits(m.layers, i, Width(m, i));
      if i > 0 { assert LayerFits(m.layers, i - 1, Width(m, i - 1)); }
    }
    SumOfSizes(m.layers, n);
    SumScales(map name | name in parameters :: |parameters[name]|, sizes, FLOAT32_BYTES);
  }

  /** Two layers with one id pass validation and lose parameters. */
  lemma RepeatedIdLosesBytes()
    ensures var layer := Layer("a", true, 1, true, "relu", 1);
            var m := Model(0, 1, 1, 4, [layer, layer.(activation := "identity")]);
            && IsValid(m)
            && forall parameters :: HasShapes(parameters, m) ==>
                 Sum(map name | name in parameters :: |parameters[name]|) != FLOAT32_BYTES * m.parameterCount
  {
    hide Sum, Sizes;
    var layer := Layer("a", true, 1, true, "relu", 1);
    var m := Model(0, 1, 1, 4, [layer, layer.(activation := "identity")]);
    assert ParameterTotal(m.layers, 1) == 2;
    assert ParameterTotal(m.layers, 2) == 4;
    assert m.layers[0].layerId == m.layers[1].layerId;
    forall parameters | HasShapes(parameters, m)
      ensures Sum(map name | name in parameters :: |parameters[name]|) != FLOAT32_BYTES * m.parameterCount
    {
      BundleSizeIff(m, parameters);
    }
  }
}
