/**
  The modes a forcing is made of: eigenfields of any eigenvalues, equal ones merged, and the products
  of two vectors that each satisfy a three-term recurrence, as sampled sines do.
 */
module ForcingModes {
  import opened Vectors
  import opened PoissonOperator
  import opened ConjugateGradient
  import opened SpectralTermination

  /** The forcing is a combination of these eigenfields; their eigenvalues may coincide. */
  ghost predicate Composes(p: Problem, modes: seq<Eigen>)
    requires Valid(p)
  {
    && (forall j :: 0 <= j < |modes| ==> IsEigen(p, modes[j]))
    && InSpan(p.n, modes, p.forcing)
  }

  // ----- Eigenfields, entry by entry.

  lemma EigenAt(p: Problem, e: Eigen, i: int, j: int)
    requires Valid(p) && IsEigen(p, e)
    ensures At(Row(Apply(p, e.field), i), j) == Times(e.value, At(Row(e.field, i), j))
  {
    hide Times, FieldAxpy, Apply;
    FieldAxpyAt(p.n, ZeroField(p.n), e.value, e.field, i, j);
  }

  lemma EigenByEntries(p: Problem, e: Eigen)
    requires Valid(p) && IsField(p.n, e.field)
    requires forall i, j :: 0 <= i < p.n && 0 <= j < p.n ==>
      At(Row(Apply(p, e.field), i), j) == Times(e.value, At(Row(e.field, i), j))
    ensures IsEigen(p, e)
  {
    hide Times, FieldAxpy, Apply;
    var scaled := FieldAxpy(p.n, ZeroField(p.n), e.value, e.field);
    forall i, j | 0 <= i < p.n && 0 <= j < p.n
      ensures At(Row(Apply(p, e.field), i), j) == At(Row(scaled, i), j)
    {
      FieldAxpyAt(p.n, ZeroField(p.n), e.value, e.field, i, j);
    }
    FieldsEqual(p.n, Apply(p, e.field), scaled);
  }

  // ----- Merging equal eigenvalues.

  /** b e + c f */
  function Sum(n: nat, b: real, e: Field, c: real, f: Field): (g: Field)
    requires IsField(n, e) && IsField(n, f)
    ensures IsField(n, g)
  {
    FieldAxpy(n, FieldAxpy(n, ZeroField(n), b, e), c, f)
  }

  lemma SumAt(n: nat, b: real, e: Field, c: real, f: Field, i: int, j: int)
    requires IsField(n, e) && IsField(n, f)
    ensures At(Row(Sum(n, b, e, c, f), i), j) == Times(b, At(Row(e, i), j)) + Times(c, At(Row(f, i), j))
  {
    hide Times, FieldAxpy;
    FieldAxpyAt(n, FieldAxpy(n, ZeroField(n), b, e), c, f, i, j);
    FieldAxpyAt(n, ZeroField(n), b, e, i, j);
  }

  lemma SumIsEigen(p: Problem, b: real, e: Eigen, c: real, f: Eigen)
    requires Valid(p) && IsEigen(p, e) && IsEigen(p, f) && e.value == f.value
    ensures IsEigen(p, Eigen(e.value, Sum(p.n, b, e.field, c, f.field)))
  {
    hide Times, FieldAxpy, NegativeLaplacian, Sum;
    var g := Sum(p.n, b, e.field, c, f.field);
    SumImage(p, b, e.field, c, f.field);
    forall i, j | 0 <= i < p.n && 0 <= j < p.n
      ensures At(Row(Apply(p, g), i), j) == Times(e.value, At(Row(g, i), j))
    {
      var x, y := At(Row(e.field, i), j), At(Row(f.field, i), j);
      SumAt(p.n, b, Apply(p, e.field), c, Apply(p, f.field), i, j);
      SumAt(p.n, b, e.field, c, f.field, i, j);
      EigenAt(p, e, i, j);
      EigenAt(p, f, i, j);
      TimesAdd(e.value, Times(b, x), Times(c, y));
      TimesExchange(b, e.value, x);
      TimesExchange(c, e.value, y);
    }
    EigenByEntries(p, Eigen(e.value, g));
  }

  lemma TimesExchange(a: real, b: real, x: real)
    ensures Times(a, Times(b, x)) == Times(b, Times(a, x))
  {
    hide Times;
    TimesAssociative(a, b, x);
    TimesAssociative(b, a, x);
    TimesSymmetric(a, b);
  }

  lemma SumImage(p: Problem, b: real, e: Field, c: real, f: Field)
    requires Valid(p) && IsField(p.n, e) && IsField(p.n, f)
    ensures Apply(p, Sum(p.n, b, e, c, f)) == Sum(p.n, b, Apply(p, e), c, Apply(p, f))
  {
    hide Times, FieldAxpy, NegativeLaplacian;
    ZeroImage(p);
    OperatorLinear(p.n, ZeroField(p.n), b, e, p.spacing);
    OperatorLinear(p.n, FieldAxpy(p.n, ZeroField(p.n), b, e), c, f, p.spacing);
  }

  /** f + 1 (b e + c g) == (f + b e) + c g */
  lemma MergedAxpy(n: nat, f: Field, b: real, e: Field, c: real, g: Field)
    requires IsField(n, f) && IsField(n, e) && IsField(n, g)
    ensures FieldAxpy(n, f, 1.0, Sum(n, b, e, c, g)) == FieldAxpy(n, FieldAxpy(n, f, b, e), c, g)
  {
    hide Times, FieldAxpy, Sum;
    var left, right := FieldAxpy(n, f, 1.0, Sum(n, b, e, c, g)), FieldAxpy(n, FieldAxpy(n, f, b, e), c, g);
    forall i, j | 0 <= i < n && 0 <= j < n ensures At(Row(left, i), j) == At(Row(right, i), j) {
      FieldAxpyAt(n, f, 1.0, Sum(n, b, e, c, g), i, j);
      SumAt(n, b, e, c, g, i, j);
      FieldAxpyAt(n, FieldAxpy(n, f, b, e), c, g, i, j);
      FieldAxpyAt(n, f, b, e, i, j);
      TimesZero(At(Row(Sum(n, b, e, c, g), i), j));
    }
    FieldsEqual(n, left, right);
  }

  /** (f + c g) + b e == (f + b e) + c g */
  lemma AxpyCommutes(n: nat, f: Field, b: real, e: Field, c: real, g: Field)
    requires IsField(n, f) && IsField(n, e) && IsField(n, g)
    ensures FieldAxpy(n, FieldAxpy(n, f, c, g), b, e) == FieldAxpy(n, FieldAxpy(n, f, b, e), c, g)
  {
    hide Times, FieldAxpy;
    var left, right := FieldAxpy(n, FieldAxpy(n, f, c, g), b, e), FieldAxpy(n, FieldAxpy(n, f, b, e), c, g);
    forall i, j | 0 <= i < n && 0 <= j < n ensures At(Row(left, i), j) == At(Row(right, i), j) {
      FieldAxpyAt(n, FieldAxpy(n, f, c, g), b, e, i, j);
      FieldAxpyAt(n, f, c, g, i, j);
      FieldAxpyAt(n, FieldAxpy(n, f, b, e), c, g, i, j);
      FieldAxpyAt(n, f, b, e, i, j);
    }
    FieldsEqual(n, left, right);
  }

  ghost predicate AreFields(n: nat, modes: seq<Eigen>) {
    forall j :: 0 <= j < |modes| ==> IsField(n, modes[j].field)
  }

  /** A combination depends on its own modes and coefficients only. */
  lemma {:induction false} MixPrefix(n: nat, x: seq<Eigen>, a: Vector, y: seq<Eigen>, b: Vector, k: nat)
    requires AreFields(n, x) && AreFields(n, y) && k <= |x| && k <= |y|
    requires forall j :: 0 <= j < k ==> x[j] == y[j] && At(a, j) == At(b, j)
    ensures Mix(n, x, a, k) == Mix(n, y, b, k)
  {
    hide FieldAxpy, At;
    if k > 0 {
      MixPrefix(n, x, a, y, b, k - 1);
    }
  }

  /** Merging c g into mode t adds c g to the combination. */
  lemma {:induction false} MixMerged(n: nat, modes: seq<Eigen>, a: Vector, t: nat, c: real, g: Field, k: nat)
    requires AreFields(n, modes) && |a| == |modes| && t < k <= |modes| && IsField(n, g)
    ensures var merged := modes[t := Eigen(modes[t].value, Sum(n, a[t], modes[t].field, c, g))];
            AreFields(n, merged)
            && Mix(n, merged, a[t := 1.0], k) == FieldAxpy(n, Mix(n, modes, a, k), c, g)
  {
    hide FieldAxpy, Sum;
    var merged := modes[t := Eigen(modes[t].value, Sum(n, a[t], modes[t].field, c, g))];
    if k == t + 1 {
      MixPrefix(n, merged, a[t := 1.0], modes, a, t);
      MergedAxpy(n, Mix(n, modes, a, t), a[t], modes[t].field, c, g);
    } else {
      MixMerged(n, modes, a, t, c, g, k - 1);
      AxpyCommutes(n, Mix(n, modes, a, k - 1), a[k - 1], modes[k - 1].field, c, g);
    }
  }

  /** Any combination of k eigenfields is one of at most k eigenfields with different eigenvalues. */
  lemma {:induction false} Merge(p: Problem, modes: seq<Eigen>, a: Vector, k: nat) returns (out: seq<Eigen>, b: Vector)
    requires Valid(p) && (forall j :: 0 <= j < |modes| ==> IsEigen(p, modes[j])) && k <= |modes|
    ensures IsSpectrum(p, out) && |out| <= k && |b| == |out|
    ensures AreFields(p.n, out) && AreFields(p.n, modes) && Mix(p.n, out, b, |out|) == Mix(p.n, modes, a, k)
  {
    hide Mix, FieldAxpy, IsEigen, Apply, Sum;
    EigensAreFields(p, modes);
    if k == 0 {
      out, b := [], [];
      MixOfNone(p.n, out, b, modes, a);
    } else {
      out, b := Merge(p, modes, a, k - 1);
      var e, c := modes[k - 1], At(a, k - 1);
      MixStep(p.n, modes, a, k);
      if t: nat :| t < |out| && out[t].value == e.value {
        MixMerged(p.n, out, b, t, c, e.field, |out|);
        SumIsEigen(p, b[t], out[t], c, e);
        out, b := out[t := Eigen(out[t].value, Sum(p.n, b[t], out[t].field, c, e.field))], b[t := 1.0];
      } else {
        MixPrefix(p.n, out + [e], b + [c], out, b, |out|);
        MixStep(p.n, out + [e], b + [c], |out| + 1);
        out, b := out + [e], b + [c];
      }
    }
  }

  lemma EigensAreFields(p: Problem, modes: seq<Eigen>)
    requires Valid(p) && forall j :: 0 <= j < |modes| ==> IsEigen(p, modes[j])
    ensures AreFields(p.n, modes)
  {
  }

  lemma MixOfNone(n: nat, x: seq<Eigen>, a: Vector, y: seq<Eigen>, b: Vector)
    requires AreFields(n, x) && AreFields(n, y)
    ensures Mix(n, x, a, 0) == Mix(n, y, b, 0)
  {
  }

  lemma MixStep(n: nat, modes: seq<Eigen>, a: Vector, k: nat)
    requires AreFields(n, modes) && 0 < k <= |modes|
    ensures Mix(n, modes, a, k) == FieldAxpy(n, Mix(n, modes, a, k - 1), At(a, k - 1), modes[k - 1].field)
  {
  }

  /** No more iterations than modes, whatever the grid and whether or not eigenvalues coincide. */
  lemma RunWithinModes(p: Problem, modes: seq<Eigen>, k: nat)
    requires Valid(p) && Running(p, k) && Composes(p, modes)
    ensures k <= |modes|
  {
    hide Mix, Running, IsSpectrum, IsEigen;
    EigensAreFields(p, modes);
    var a: Vector :| |a| == |modes| && p.forcing == Mix(p.n, modes, a, |modes|);
    var out, b := Merge(p, modes, a, |modes|);
    assert InSpan(p.n, out, p.forcing);
    RunWithinSpectrum(p, out, k);
  }

  // ----- Products of one-dimensional modes.

  /** Zero beyond both ends, and each pair of neighbours adds up to c times the entry between: with
      c = 2 cos(k pi h), the sines of k pi i h on the inner points. */
  ghost predicate Recurs(n: nat, u: Vector, c: real) {
    |u| == n && forall i :: 0 <= i < n ==> At(u, i - 1) + At(u, i + 1) == Times(c, At(u, i))
  }

  function Product(n: nat, u: Vector, v: Vector): (f: Field)
    ensures IsField(n, f)
  {
    seq(n, i => seq(n, j => Times(At(u, i), At(v, j))))
  }

  lemma ProductAt(n: nat, u: Vector, v: Vector, i: int, j: int)
    requires |u| == n && |v| == n
    ensures At(Row(Product(n, u, v), i), j) == Times(At(u, i), At(v, j))
  {
    hide Times;
    TimesZero(At(u, i));
    TimesZero(At(v, j));
  }

  /** 4 a b - (a' + a'') b - a (b' + b'') == (4 - c - d) a b */
  lemma ProductStencil(a: real, below: real, above: real, b: real, left: real, right: real, c: real, d: real)
    requires below + above == Times(c, a) && left + right == Times(d, b)
    ensures 4.0 * Times(a, b) - Times(below, b) - Times(above, b) - Times(a, left) - Times(a, right)
         == Times(4.0 - c - d, Times(a, b))
  {
    hide Times;
    TimesAdd(b, below, above);
    TimesAdd(a, left, right);
    TimesAssociative(c, a, b);
    TimesExchange(a, d, b);
    TimesSubtract(Times(a, b), 4.0 - c, d);
    TimesSubtract(Times(a, b), 4.0, c);
    FourTimes(Times(a, b));
  }

  lemma FourTimes(x: real)
    ensures Times(4.0, x) == 4.0 * x
  {
  }

  /** The product of two such vectors is an eigenfield: what makes a sampled product of sines a mode is
      the recurrence of the sine alone. */
  lemma ProductIsEigen(p: Problem, u: Vector, v: Vector, c: real, d: real)
    requires Valid(p) && Recurs(p.n, u, c) && Recurs(p.n, v, d)
    ensures IsEigen(p, Eigen(Times(InverseSquare(p.spacing), 4.0 - c - d), Product(p.n, u, v)))
  {
    hide Times, Product, NegativeLaplacian, InverseSquare, At, Row, IsEigen;
    var f, s := Product(p.n, u, v), InverseSquare(p.spacing);
    forall i, j | 0 <= i < p.n && 0 <= j < p.n
      ensures At(Row(Apply(p, f), i), j) == Times(Times(s, 4.0 - c - d), At(Row(f, i), j))
    {
      OperatorAt(p.n, f, p.spacing, i, j);
      ProductAt(p.n, u, v, i, j);
      ProductAt(p.n, u, v, i - 1, j);
      ProductAt(p.n, u, v, i + 1, j);
      ProductAt(p.n, u, v, i, j - 1);
      ProductAt(p.n, u, v, i, j + 1);
      ProductStencil(At(u, i), At(u, i - 1), At(u, i + 1), At(v, j), At(v, j - 1), At(v, j + 1), c, d);
      TimesAssociative(s, 4.0 - c - d, Times(At(u, i), At(v, j)));
    }
    EigenByEntries(p, Eigen(Times(s, 4.0 - c - d), f));
  }
}
