/**
  A forcing made of eigenfields with m different eigenvalues is solved within m iterations, on every
  grid: every residual stays in their span, and Bessel's inequality over the eigenfields counts them.
 */
module SpectralTermination {
  import opened Vectors
  import opened PoissonOperator
  import opened ConjugateGradient
  import opened FiniteTermination

  datatype Eigen = Eigen(value: real, field: Field)

  ghost predicate IsEigen(p: Problem, e: Eigen)
    requires Valid(p)
  {
    IsField(p.n, e.field) && Apply(p, e.field) == FieldAxpy(p.n, ZeroField(p.n), e.value, e.field)
  }

  /** Eigenfields of pairwise different eigenvalues. */
  ghost predicate IsSpectrum(p: Problem, modes: seq<Eigen>)
    requires Valid(p)
  {
    && (forall j :: 0 <= j < |modes| ==> IsEigen(p, modes[j]))
    && (forall i, j :: 0 <= i < j < |modes| ==> modes[i].value != modes[j].value)
  }

  /** The first k modes with coefficients a. */
  function Mix(n: nat, modes: seq<Eigen>, a: Vector, k: nat): (f: Field)
    requires k <= |modes| && forall j :: 0 <= j < |modes| ==> IsField(n, modes[j].field)
    ensures IsField(n, f)
  {
    if k == 0 then ZeroField(n) else FieldAxpy(n, Mix(n, modes, a, k - 1), At(a, k - 1), modes[k - 1].field)
  }

  ghost predicate InSpan(n: nat, modes: seq<Eigen>, f: Field)
    requires forall j :: 0 <= j < |modes| ==> IsField(n, modes[j].field)
  {
    exists a: Vector :: |a| == |modes| && f == Mix(n, modes, a, |modes|)
  }

  // ----- Eigenfields of different eigenvalues are orthogonal.

  lemma ScaledPairing(n: nat, c: real, f: Field, g: Field)
    requires IsField(n, f)
    ensures Inner(n, FieldAxpy(n, ZeroField(n), c, f), g) == Times(c, Inner(n, f, g))
  {
    hide Times, Inner, FieldAxpy;
    InnerAxpy(n, ZeroField(n), c, f, g);
    InnerZero(n, g);
    InnerSymmetric(n, ZeroField(n), g);
  }

  lemma EigenOrthogonal(p: Problem, e: Eigen, f: Eigen)
    requires Valid(p) && IsEigen(p, e) && IsEigen(p, f) && e.value != f.value
    ensures Inner(p.n, e.field, f.field) == 0.0
  {
    hide Times, Inner, FieldAxpy, NegativeLaplacian;
    var x := Inner(p.n, e.field, f.field);
    OperatorSymmetric(p.n, e.field, p.spacing, f.field);
    ScaledPairing(p.n, e.value, e.field, f.field);
    ScaledPairing(p.n, f.value, f.field, e.field);
    InnerSymmetric(p.n, e.field, FieldAxpy(p.n, ZeroField(p.n), f.value, f.field));
    InnerSymmetric(p.n, f.field, e.field);
    TimesSubtract(x, e.value, f.value);
    NoZeroDivisor(e.value - f.value, x);
  }

  // ----- The span is closed under the steps of the iteration.

  /** (f + c g) + (a + c b) v == (f + a v) + c (g + b v), entry by entry. */
  lemma Rearranged(n: nat, f: Field, g: Field, v: Field, a: real, b: real, c: real)
    requires IsField(n, f) && IsField(n, g) && IsField(n, v)
    ensures FieldAxpy(n, FieldAxpy(n, f, c, g), a + Times(c, b), v)
         == FieldAxpy(n, FieldAxpy(n, f, a, v), c, FieldAxpy(n, g, b, v))
  {
    hide Times, FieldAxpy, At, Row;
    var left := FieldAxpy(n, FieldAxpy(n, f, c, g), a + Times(c, b), v);
    var right := FieldAxpy(n, FieldAxpy(n, f, a, v), c, FieldAxpy(n, g, b, v));
    forall i, j | 0 <= i < n && 0 <= j < n ensures At(Row(left, i), j) == At(Row(right, i), j) {
      var y := At(Row(v, i), j);
      FieldAxpyAt(n, FieldAxpy(n, f, c, g), a + Times(c, b), v, i, j);
      FieldAxpyAt(n, f, c, g, i, j);
      FieldAxpyAt(n, FieldAxpy(n, f, a, v), c, FieldAxpy(n, g, b, v), i, j);
      FieldAxpyAt(n, f, a, v, i, j);
      FieldAxpyAt(n, g, b, v, i, j);
      TimesAdd(y, a, Times(c, b));
      TimesAssociative(c, b, y);
      TimesAdd(c, At(Row(g, i), j), Times(b, y));
    }
    FieldsEqual(n, left, right);
  }

  lemma {:induction false} MixAxpy(n: nat, modes: seq<Eigen>, a: Vector, c: real, b: Vector, k: nat)
    requires k <= |modes| && (forall j :: 0 <= j < |modes| ==> IsField(n, modes[j].field)) && |a| == |b|
    ensures Mix(n, modes, Axpy(a, c, b), k) == FieldAxpy(n, Mix(n, modes, a, k), c, Mix(n, modes, b, k))
  {
    hide Times, FieldAxpy, Axpy, At;
    if k == 0 {
      ScaledZero(n, c);
    } else {
      MixAxpy(n, modes, a, c, b, k - 1);
      AxpyAt(a, c, b, k - 1);
      Rearranged(n, Mix(n, modes, a, k - 1), Mix(n, modes, b, k - 1), modes[k - 1].field,
                 At(a, k - 1), At(b, k - 1), c);
    }
  }

  lemma ScaledZero(n: nat, c: real)
    ensures FieldAxpy(n, ZeroField(n), c, ZeroField(n)) == ZeroField(n)
  {
    hide Times, FieldAxpy;
    var f := FieldAxpy(n, ZeroField(n), c, ZeroField(n));
    forall i, j | 0 <= i < n && 0 <= j < n ensures At(Row(f, i), j) == At(Row(ZeroField(n), i), j) {
      FieldAxpyAt(n, ZeroField(n), c, ZeroField(n), i, j);
      TimesZero(c);
    }
    FieldsEqual(n, f, ZeroField(n));
  }

  function Scaled(modes: seq<Eigen>, a: Vector): (b: Vector)
    requires |a| == |modes|
    ensures |b| == |a|
  {
    seq(|a|, j requires 0 <= j < |a| => Times(a[j], modes[j].value))
  }

  /** f + a (l v) == f + (a l) v */
  lemma ScaledTwice(n: nat, f: Field, a: real, l: real, v: Field)
    requires IsField(n, f) && IsField(n, v)
    ensures FieldAxpy(n, f, a, FieldAxpy(n, ZeroField(n), l, v)) == FieldAxpy(n, f, Times(a, l), v)
  {
    hide Times, FieldAxpy;
    var left, right := FieldAxpy(n, f, a, FieldAxpy(n, ZeroField(n), l, v)), FieldAxpy(n, f, Times(a, l), v);
    forall i, j | 0 <= i < n && 0 <= j < n ensures At(Row(left, i), j) == At(Row(right, i), j) {
      FieldAxpyAt(n, f, a, FieldAxpy(n, ZeroField(n), l, v), i, j);
      FieldAxpyAt(n, ZeroField(n), l, v, i, j);
      FieldAxpyAt(n, f, Times(a, l), v, i, j);
      TimesAssociative(a, l, At(Row(v, i), j));
    }
    FieldsEqual(n, left, right);
  }

  lemma {:induction false} MixApply(p: Problem, modes: seq<Eigen>, a: Vector, k: nat)
    requires Valid(p) && IsSpectrum(p, modes) && |a| == |modes| && k <= |modes|
    ensures Apply(p, Mix(p.n, modes, a, k)) == Mix(p.n, modes, Scaled(modes, a), k)
  {
    hide Times, FieldAxpy, NegativeLaplacian;
    if k == 0 {
      ZeroImage(p);
    } else {
      MixApply(p, modes, a, k - 1);
      assert IsEigen(p, modes[k - 1]);
      OperatorLinear(p.n, Mix(p.n, modes, a, k - 1), At(a, k - 1), modes[k - 1].field, p.spacing);
      ScaledTwice(p.n, Mix(p.n, modes, Scaled(modes, a), k - 1), a[k - 1], modes[k - 1].value, modes[k - 1].field);
    }
  }

  lemma ZeroImage(p: Problem)
    requires Valid(p)
    ensures Apply(p, ZeroField(p.n)) == ZeroField(p.n)
  {
    hide Apply;
    forall i, j | 0 <= i < p.n && 0 <= j < p.n
      ensures At(Row(Apply(p, ZeroField(p.n)), i), j) == At(Row(ZeroField(p.n), i), j)
    {
      ApplyZero(p, i, j);
    }
    FieldsEqual(p.n, Apply(p, ZeroField(p.n)), ZeroField(p.n));
  }

  lemma SpanAxpy(n: nat, modes: seq<Eigen>, f: Field, c: real, g: Field)
    requires forall j :: 0 <= j < |modes| ==> IsField(n, modes[j].field)
    requires IsField(n, f) && IsField(n, g) && InSpan(n, modes, f) && InSpan(n, modes, g)
    ensures InSpan(n, modes, FieldAxpy(n, f, c, g))
  {
    hide Mix, FieldAxpy, Axpy;
    var a: Vector :| |a| == |modes| && f == Mix(n, modes, a, |modes|);
    var b: Vector :| |b| == |modes| && g == Mix(n, modes, b, |modes|);
    MixAxpy(n, modes, a, c, b, |modes|);
    assert |Axpy(a, c, b)| == |modes|;
  }

  lemma SpanApply(p: Problem, modes: seq<Eigen>, f: Field)
    requires Valid(p) && IsSpectrum(p, modes) && IsField(p.n, f) && InSpan(p.n, modes, f)
    ensures InSpan(p.n, modes, Apply(p, f))
  {
    hide Mix, Apply, Scaled;
    var a: Vector :| |a| == |modes| && f == Mix(p.n, modes, a, |modes|);
    MixApply(p, modes, a, |modes|);
    assert |Scaled(modes, a)| == |modes|;
  }

  /** Residuals and directions never leave the span of the forcing's modes. */
  lemma {:induction false} RunStaysInSpan(p: Problem, modes: seq<Eigen>, k: nat)
    requires Valid(p) && IsSpectrum(p, modes) && InSpan(p.n, modes, p.forcing)
    ensures InSpan(p.n, modes, R(p, k)) && InSpan(p.n, modes, D(p, k))
  {
    hide InSpan, IsSpectrum, FieldAxpy, Apply, Alpha, Beta, Inner;
    if k > 0 {
      hide StateAt, R, D;
      RunStaysInSpan(p, modes, k - 1);
      UpdatesAre(p, k - 1);
      SpectrumFields(p, modes);
      SpanApply(p, modes, D(p, k - 1));
      SpanAxpy(p.n, modes, R(p, k - 1), -Alpha(p, k - 1), Image(p, k - 1));
      SpanAxpy(p.n, modes, R(p, k), Beta(p, k - 1), D(p, k - 1));
    }
  }

  lemma SpectrumFields(p: Problem, modes: seq<Eigen>)
    requires Valid(p) && IsSpectrum(p, modes)
    ensures forall j :: 0 <= j < |modes| ==> IsField(p.n, modes[j].field)
  {
    forall j | 0 <= j < |modes| ensures IsField(p.n, modes[j].field) {
      assert IsEigen(p, modes[j]);
    }
  }

  // ----- The energy of a field in the span, mode by mode.

  function Norm(n: nat, e: Eigen): real { Inner(n, e.field, e.field) }

  /** The energy of f along one mode. */
  function Part(n: nat, e: Eigen, f: Field): real {
    Times(Quotient(Inner(n, e.field, f), Norm(n, e)), Inner(n, e.field, f))
  }

  function Parts(n: nat, modes: seq<Eigen>, f: Field, k: nat): real
    requires k <= |modes|
  {
    if k == 0 then 0.0 else Parts(n, modes, f, k - 1) + Part(n, modes[k - 1], f)
  }

  lemma {:induction false} MixPairing(p: Problem, modes: seq<Eigen>, a: Vector, k: nat, j: nat)
    requires Valid(p) && IsSpectrum(p, modes) && k <= |modes| && j < |modes|
    ensures Inner(p.n, modes[j].field, Mix(p.n, modes, a, k))
         == if j < k then Times(At(a, j), Norm(p.n, modes[j])) else 0.0
  {
    hide Times, Inner, FieldAxpy;
    assert IsEigen(p, modes[j]);
    if k == 0 {
      InnerZero(p.n, modes[j].field);
    } else {
      MixPairing(p, modes, a, k - 1, j);
      assert IsEigen(p, modes[k - 1]);
      InnerAxpy(p.n, Mix(p.n, modes, a, k - 1), At(a, k - 1), modes[k - 1].field, modes[j].field);
      if j != k - 1 {
        DistinctValues(p, modes, j, k - 1);
        EigenOrthogonal(p, modes[j], modes[k - 1]);
        TimesZero(At(a, k - 1));
      }
    }
  }

  lemma DistinctValues(p: Problem, modes: seq<Eigen>, i: nat, j: nat)
    requires Valid(p) && IsSpectrum(p, modes) && i < |modes| && j < |modes| && i != j
    ensures modes[i].value != modes[j].value
  {
  }

  lemma PartOfMix(a: real, x: real, norm: real)
    requires x == Times(a, norm)
    ensures Times(Quotient(x, norm), x) == Times(a, x)
  {
    hide Times, Quotient;
    if norm == 0.0 {
      TimesZero(a);
      TimesZero(Quotient(x, norm));
    } else {
      TimesSymmetric(norm, Quotient(x, norm));
      TimesSymmetric(norm, a);
      TimesCancel(norm, Quotient(x, norm), a);
    }
  }

  lemma {:induction false} PartsOfMix(p: Problem, modes: seq<Eigen>, a: Vector, f: Field, k: nat)
    requires Valid(p) && IsSpectrum(p, modes) && k <= |modes| && |a| == |modes| && f == Mix(p.n, modes, a, |modes|)
    ensures Parts(p.n, modes, f, k) == Inner(p.n, Mix(p.n, modes, a, k), f)
  {
    hide Times, Inner, FieldAxpy, Quotient;
    if k == 0 {
      InnerZero(p.n, f);
      InnerSymmetric(p.n, f, ZeroField(p.n));
    } else {
      PartsOfMix(p, modes, a, f, k - 1);
      assert IsEigen(p, modes[k - 1]);
      MixPairing(p, modes, a, |modes|, k - 1);
      PartOfMix(At(a, k - 1), Inner(p.n, modes[k - 1].field, f), Norm(p.n, modes[k - 1]));
      InnerAxpy(p.n, Mix(p.n, modes, a, k - 1), At(a, k - 1), modes[k - 1].field, f);
    }
  }

  /** Parseval: the modes carry all the energy of a field in their span. */
  lemma Parseval(p: Problem, modes: seq<Eigen>, f: Field)
    requires Valid(p) && IsSpectrum(p, modes)
    requires (forall j :: 0 <= j < |modes| ==> IsField(p.n, modes[j].field)) && InSpan(p.n, modes, f)
    ensures Parts(p.n, modes, f, |modes|) == Inner(p.n, f, f)
  {
    hide Mix, Inner, Parts;
    var a: Vector :| |a| == |modes| && f == Mix(p.n, modes, a, |modes|);
    PartsOfMix(p, modes, a, f, |modes|);
  }

  // ----- Counting residuals.

  /** The relative energies of the first k residuals in the first m modes. */
  function Load(p: Problem, modes: seq<Eigen>, k: nat, m: nat): real
    requires Valid(p) && m <= |modes|
  {
    if k == 0 then 0.0
    else Load(p, modes, k - 1, m) + Quotient(Parts(p.n, modes, R(p, k - 1), m), Energy(p, k - 1))
  }

  lemma QuotientAdd(a: real, b: real, e: real)
    ensures Quotient(a + b, e) == Quotient(a, e) + Quotient(b, e)
  {
    hide Times, Quotient;
    if e != 0.0 {
      TimesAdd(e, Quotient(a, e), Quotient(b, e));
      TimesSymmetric(e, Quotient(a, e));
      TimesSymmetric(e, Quotient(b, e));
      TimesSymmetric(e, Quotient(a + b, e));
      TimesCancel(e, Quotient(a + b, e), Quotient(a, e) + Quotient(b, e));
    } else {
      QuotientByZero(a);
      QuotientByZero(b);
      QuotientByZero(a + b);
    }
  }

  lemma QuotientByZero(a: real)
    ensures Quotient(a, 0.0) == 0.0
  {
  }

  /** (x / n) x / e == (x / e) x / n */
  lemma QuotientsCommute(x: real, n: real, e: real)
    ensures Quotient(Times(Quotient(x, n), x), e) == Quotient(Times(Quotient(x, e), x), n)
  {
    hide Times;
    if n != 0.0 && e != 0.0 {
      TimesDivided(x, x, n);
      TimesDivided(x, x, e);
      DividedTwice(Times(x, x), n, e);
    } else {
      TimesZero(x);
    }
  }

  lemma TimesDivided(x: real, y: real, n: real)
    requires n != 0.0
    ensures Times(x / n, y) == Times(x, y) / n
  {
  }

  lemma DividedTwice(x: real, n: real, e: real)
    requires n != 0.0 && e != 0.0
    ensures x / n / e == x / e / n
  {
  }

  lemma {:induction false} LoadGrows(p: Problem, modes: seq<Eigen>, k: nat, m: nat)
    requires Valid(p) && m < |modes|
    ensures Load(p, modes, k, m + 1)
         == Load(p, modes, k, m) + Quotient(BesselSum(p, modes[m].field, k), Norm(p.n, modes[m]))
  {
    hide Times, Quotient, Inner, StateAt, R;
    var norm := Norm(p.n, modes[m]);
    if k == 0 {
      QuotientOfZero(norm);
    } else {
      LoadGrows(p, modes, k - 1, m);
      var r, e := R(p, k - 1), Energy(p, k - 1);
      var x := Inner(p.n, modes[m].field, r);
      QuotientAdd(Parts(p.n, modes, r, m), Part(p.n, modes[m], r), e);
      QuotientsCommute(x, norm, e);
      QuotientAdd(BesselSum(p, modes[m].field, k - 1), Times(Quotient(x, e), x), norm);
    }
  }

  lemma {:induction false} LoadBounded(p: Problem, modes: seq<Eigen>, k: nat, m: nat)
    requires Valid(p) && m <= |modes| && Running(p, k) && ResidualsOrthogonal(p, k)
    requires forall j :: 0 <= j < |modes| ==> IsField(p.n, modes[j].field)
    ensures Load(p, modes, k, m) <= m as real
  {
    hide Load, BesselSum, Running, ResidualsOrthogonal, Inner, Quotient;
    if m == 0 {
      LoadOfNone(p, modes, k);
    } else {
      LoadBounded(p, modes, k, m - 1);
      LoadGrows(p, modes, k, m - 1);
      Bessel(p, modes[m - 1].field, k);
      InnerDefinite(p.n, modes[m - 1].field);
      AtMostOne(BesselSum(p, modes[m - 1].field, k), Norm(p.n, modes[m - 1]));
    }
  }

  lemma {:induction false} LoadOfNone(p: Problem, modes: seq<Eigen>, k: nat)
    requires Valid(p)
    ensures Load(p, modes, k, 0) == 0.0
  {
    hide Quotient, StateAt, R;
    if k > 0 {
      LoadOfNone(p, modes, k - 1);
      QuotientOfZero(Energy(p, k - 1));
    }
  }

  lemma AtMostOne(s: real, norm: real)
    requires s <= norm && norm >= 0.0
    ensures Quotient(s, norm) <= 1.0
  {
  }

  lemma {:induction false} LoadTotal(p: Problem, modes: seq<Eigen>, k: nat)
    requires Valid(p) && Running(p, k) && IsSpectrum(p, modes) && InSpan(p.n, modes, p.forcing)
    ensures Load(p, modes, k, |modes|) == k as real
  {
    hide StateAt, R, Parts, Times, Inner, IsSpectrum, InSpan, Quotient;
    SpectrumFields(p, modes);
    if k > 0 {
      LoadTotal(p, modes, k - 1);
      RunStaysInSpan(p, modes, k - 1);
      Parseval(p, modes, R(p, k - 1));
      EnergyIsSquare(p, k - 1);
      assert StateAt(p, k - 1).energy != 0.0;
      QuotientOfItself(Energy(p, k - 1));
    }
  }

  lemma QuotientOfItself(e: real)
    requires e != 0.0
    ensures Quotient(e, e) == 1.0
  {
  }

  /** No more iterations than different eigenvalues, whatever the grid. */
  lemma RunWithinSpectrum(p: Problem, modes: seq<Eigen>, k: nat)
    requires Valid(p) && Running(p, k) && IsSpectrum(p, modes) && InSpan(p.n, modes, p.forcing)
    ensures k <= |modes|
  {
    hide Load, Running, IsSpectrum, InSpan;
    SpectrumFields(p, modes);
    RunInvariant(p, k);
    LoadTotal(p, modes, k);
    LoadBounded(p, modes, k, |modes|);
  }
}
