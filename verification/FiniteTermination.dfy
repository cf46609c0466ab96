/**
  Conjugate gradients meet a zero residual within n^2 iterations: nonzero residuals are
  pairwise orthogonal, and Bessel's inequality over the n^2 unit fields bounds their number.
 */
module FiniteTermination {
  import opened Vectors
  import opened PoissonOperator
  import opened ConjugateGradient

  // ----- Bessel's inequality for the residuals of a run.

  /** The coordinate of v along residual i. */
  function Coordinate(p: Problem, v: Field, i: nat): real
    requires Valid(p)
  {
    Quotient(Inner(p.n, v, R(p, i)), Energy(p, i))
  }

  /** v less its projections on the first k residuals. */
  function Remainder(p: Problem, v: Field, k: nat): (f: Field)
    requires Valid(p) && IsField(p.n, v)
    ensures IsField(p.n, f)
  {
    if k == 0 then v
    else FieldAxpy(p.n, Remainder(p, v, k - 1), -Coordinate(p, v, k - 1), R(p, k - 1))
  }

  /** The sum of <v, r_i>^2 / <r_i, r_i> over the first k residuals. */
  function BesselSum(p: Problem, v: Field, k: nat): real
    requires Valid(p)
  {
    if k == 0 then 0.0
    else BesselSum(p, v, k - 1) + Times(Coordinate(p, v, k - 1), Inner(p.n, v, R(p, k - 1)))
  }

  lemma {:induction false} RemainderPairing(p: Problem, v: Field, j: nat, i: nat)
    requires Valid(p) && IsField(p.n, v) && ResidualsOrthogonal(p, i) && j <= i
    ensures Inner(p.n, Remainder(p, v, j), R(p, i)) == Inner(p.n, v, R(p, i))
  {
    hide Times, Inner, FieldAxpy, R, Coordinate;
    if j > 0 {
      RemainderPairing(p, v, j - 1, i);
      InnerAxpy(p.n, Remainder(p, v, j - 1), -Coordinate(p, v, j - 1), R(p, j - 1), R(p, i));
      TimesZero(-Coordinate(p, v, j - 1));
    }
  }

  lemma {:induction false} RemainderNorm(p: Problem, v: Field, k: nat)
    requires Valid(p) && IsField(p.n, v) && Running(p, k) && ResidualsOrthogonal(p, k)
    ensures Inner(p.n, Remainder(p, v, k), Remainder(p, v, k)) == Inner(p.n, v, v) - BesselSum(p, v, k)
  {
    hide Times, Inner, FieldAxpy, R, StateAt;
    if k > 0 {
      var f, c, r := Remainder(p, v, k - 1), Coordinate(p, v, k - 1), R(p, k - 1);
      RemainderNorm(p, v, k - 1);
      RemainderPairing(p, v, k - 1, k - 1);
      EnergyIsSquare(p, k - 1);
      assert StateAt(p, k - 1).energy != 0.0;
      SquareOfAxpy(p.n, f, c, r);
    }
  }

  lemma SquareOfAxpy(n: nat, f: Field, c: real, r: Field)
    requires IsField(n, f) && IsField(n, r)
    requires Times(c, Inner(n, r, r)) == Inner(n, f, r)
    ensures var g := FieldAxpy(n, f, -c, r); Inner(n, g, g) == Inner(n, f, f) - Times(c, Inner(n, f, r))
  {
    hide Times, Inner, FieldAxpy;
    var g := FieldAxpy(n, f, -c, r);
    InnerAxpy(n, f, -c, r, g);
    InnerAxpy(n, f, -c, r, f);
    InnerAxpy(n, f, -c, r, r);
    InnerSymmetric(n, f, r);
    TimesNegate(c, Inner(n, f, r));
    TimesNegate(c, Inner(n, r, r));
    TimesZero(-c);
  }

  lemma Bessel(p: Problem, v: Field, k: nat)
    requires Valid(p) && IsField(p.n, v) && Running(p, k) && ResidualsOrthogonal(p, k)
    ensures BesselSum(p, v, k) <= Inner(p.n, v, v)
  {
    hide Inner, BesselSum, Remainder;
    RemainderNorm(p, v, k);
    InnerDefinite(p.n, Remainder(p, v, k));
  }

  // ----- Unit fields.

  function UnitRow(n: nat, b: nat): (u: Vector)
    ensures |u| == n
  {
    seq(n, j => if j == b then 1.0 else 0.0)
  }

  function UnitField(n: nat, a: nat, b: nat): (f: Field)
    ensures IsField(n, f)
  {
    var hit, miss := UnitRow(n, b), UnitRow(n, n);
    seq(n, i => if i == a then hit else miss)
  }

  lemma {:induction false} UnitRowPairing(n: nat, b: nat, k: nat, w: Vector)
    requires b < n && k <= n
    ensures Dot(k, UnitRow(n, b), w) == if b < k then At(w, b) else 0.0
  {
    hide Times;
    if k > 0 {
      UnitRowPairing(n, b, k - 1, w);
      TimesZero(At(w, k - 1));
    }
  }

  lemma {:induction false} UnitRowsPairing(n: nat, a: nat, b: nat, k: nat, f: Field)
    requires a < n && b < n && k <= n
    ensures InnerRows(n, k, UnitField(n, a, b), f) == if a < k then At(Row(f, a), b) else 0.0
  {
    hide Dot;
    if k > 0 {
      UnitRowsPairing(n, a, b, k - 1, f);
      if k - 1 == a {
        UnitRowPairing(n, b, n, Row(f, k - 1));
      } else {
        DotZero(n, UnitRow(n, n), Row(f, k - 1));
      }
    }
  }

  /** Pairing with a unit field reads one entry. */
  lemma UnitPairing(n: nat, a: nat, b: nat, f: Field)
    requires a < n && b < n
    ensures Inner(n, UnitField(n, a, b), f) == At(Row(f, a), b)
    ensures Inner(n, UnitField(n, a, b), UnitField(n, a, b)) == 1.0
  {
    UnitRowsPairing(n, a, b, n, f);
    UnitRowsPairing(n, a, b, n, UnitField(n, a, b));
    assert Row(UnitField(n, a, b), a) == UnitRow(n, b);
  }

  // ----- Counting.

  /** The part of residual i's energy in the rows before a and the first b entries of row a. */
  function Share(p: Problem, i: nat, a: nat, b: nat): real
    requires Valid(p)
  {
    InnerRows(p.n, a, R(p, i), R(p, i)) + Dot(b, Row(R(p, i), a), Row(R(p, i), a))
  }

  function Weight(p: Problem, k: nat, a: nat, b: nat): real
    requires Valid(p)
  {
    if k == 0 then 0.0 else Weight(p, k - 1, a, b) + Quotient(Share(p, k - 1, a, b), Energy(p, k - 1))
  }

  lemma QuotientOfSum(s: real, x: real, e: real)
    requires e != 0.0
    ensures Quotient(s + Times(x, x), e) == Quotient(s, e) + Times(Quotient(x, e), x)
  {
    hide Times, Quotient;
    var q := Quotient(s, e) + Times(Quotient(x, e), x);
    TimesAdd(e, Quotient(s, e), Times(Quotient(x, e), x));
    TimesSymmetric(e, Quotient(s, e));
    TimesSymmetric(e, Quotient(x, e));
    TimesAssociative(e, Quotient(x, e), x);
    TimesSymmetric(e, Quotient(s + Times(x, x), e));
    TimesCancel(e, Quotient(s + Times(x, x), e), q);
  }

  lemma {:induction false} WeightGrows(p: Problem, k: nat, a: nat, b: nat)
    requires Valid(p) && Running(p, k) && a < p.n && b < p.n
    ensures Weight(p, k, a, b + 1) == Weight(p, k, a, b) + BesselSum(p, UnitField(p.n, a, b), k)
  {
    hide Times, Quotient, InnerRows, StateAt, R, UnitField;
    if k > 0 {
      WeightGrows(p, k - 1, a, b);
      UnitPairing(p.n, a, b, R(p, k - 1));
      assert StateAt(p, k - 1).energy != 0.0;
      QuotientOfSum(Share(p, k - 1, a, b), At(Row(R(p, k - 1), a), b), Energy(p, k - 1));
    }
  }

  lemma {:induction false} WeightWraps(p: Problem, k: nat, a: nat)
    requires Valid(p)
    ensures Weight(p, k, a, p.n) == Weight(p, k, a + 1, 0)
  {
    hide Times, Quotient, StateAt, R;
    if k > 0 {
      WeightWraps(p, k - 1, a);
      assert Share(p, k - 1, a, p.n) == Share(p, k - 1, a + 1, 0);
    }
  }

  lemma {:induction false} WeightBounded(p: Problem, k: nat, a: nat, b: nat)
    requires Valid(p) && Running(p, k) && ResidualsOrthogonal(p, k)
    requires (a < p.n && b <= p.n) || (a == p.n && b == 0)
    ensures Weight(p, k, a, b) <= (a * p.n + b) as real
    decreases a, b
  {
    hide Weight, BesselSum, Running, ResidualsOrthogonal, UnitField, Inner;
    if b > 0 {
      WeightBounded(p, k, a, b - 1);
      WeightGrows(p, k, a, b - 1);
      Bessel(p, UnitField(p.n, a, b - 1), k);
      UnitPairing(p.n, a, b - 1, R(p, 0));
    } else if a > 0 {
      WeightBounded(p, k, a - 1, p.n);
      WeightWraps(p, k, a - 1);
      assert (a - 1) * p.n + p.n == a * p.n;
    } else {
      WeightStarts(p, k);
    }
  }

  lemma {:induction false} WeightStarts(p: Problem, k: nat)
    requires Valid(p)
    ensures Weight(p, k, 0, 0) == 0.0
  {
    hide StateAt, R, Share, Times, Quotient;
    if k > 0 {
      WeightStarts(p, k - 1);
      ShareStarts(p, k - 1);
      QuotientOfZero(Energy(p, k - 1));
    }
  }

  lemma ShareStarts(p: Problem, i: nat)
    requires Valid(p)
    ensures Share(p, i, 0, 0) == 0.0
  {
    hide StateAt, R, Times;
  }

  lemma QuotientOfZero(e: real)
    ensures Quotient(0.0, e) == 0.0
  {
  }

  lemma {:induction false} WeightTotal(p: Problem, k: nat)
    requires Valid(p) && Running(p, k)
    ensures Weight(p, k, p.n, 0) == k as real
  {
    hide StateAt, R, InnerRows, Times;
    if k > 0 {
      WeightTotal(p, k - 1);
      EnergyIsSquare(p, k - 1);
      assert StateAt(p, k - 1).energy != 0.0;
      assert Share(p, k - 1, p.n, 0) == Energy(p, k - 1);
      TimesZero(Energy(p, k - 1));
    }
  }

  /** No run has more than n^2 iterations: the residual is exactly zero by then. */
  lemma RunIsFinite(p: Problem, k: nat)
    requires Valid(p) && Running(p, k)
    ensures k <= p.n * p.n
  {
    hide Weight, Running;
    RunInvariant(p, k);
    WeightTotal(p, k);
    WeightBounded(p, k, p.n, 0);
  }
}
