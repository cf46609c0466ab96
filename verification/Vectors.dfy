/**
  Finite real vectors, read as zero outside their bounds.  Every numerical module of the
  project computes over exact reals; this one holds the bilinear algebra they share.
 */
module Vectors {

  type Vector = seq<real>

  type Matrix = seq<Vector>

  predicate IsSquare(matrix: Matrix) {
    forall i :: 0 <= i < |matrix| ==> |matrix[i]| == |matrix|
  }

  /** The entry of `u` at `i`, and zero outside `u`: the reading a zero-padded array gives. */
  function At(u: Vector, i: int): real {
    if 0 <= i < |u| then u[i] else 0.0
  }

  /** The product a * b, named so that proofs can treat it as a symbol with the laws below. */
  function Times(a: real, b: real): real {
    a * b
  }

  /** u + c * v */
  function Axpy(u: Vector, c: real, v: Vector): (w: Vector)
    requires |u| == |v|
    ensures |w| == |u|
  {
    seq(|u|, i requires 0 <= i < |u| => u[i] + Times(c, v[i]))
  }

  /** The inner product of the first `n` entries. */
  function Dot(n: nat, u: Vector, v: Vector): real {
    if n == 0 then 0.0 else Dot(n - 1, u, v) + Times(At(u, n - 1), At(v, n - 1))
  }

  /** A quotient, and zero where the divisor is zero. */
  function Quotient(a: real, b: real): (q: real)
    ensures b != 0.0 ==> Times(q, b) == a
  {
    if b == 0.0 then 0.0 else a / b
  }

  // ----- Laws of the product.

  lemma TimesSymmetric(a: real, b: real)
    ensures Times(a, b) == Times(b, a)
  {
  }

  lemma TimesAdd(c: real, a: real, b: real)
    ensures Times(c, a + b) == Times(c, a) + Times(c, b)
    ensures Times(a + b, c) == Times(a, c) + Times(b, c)
  {
  }

  lemma TimesSubtract(c: real, a: real, b: real)
    ensures Times(c, a - b) == Times(c, a) - Times(c, b)
    ensures Times(a - b, c) == Times(a, c) - Times(b, c)
  {
  }

  lemma TimesNegate(c: real, a: real)
    ensures Times(-c, a) == -Times(c, a)
    ensures Times(c, -a) == -Times(c, a)
  {
  }

  lemma TimesAssociative(a: real, b: real, c: real)
    ensures Times(Times(a, b), c) == Times(a, Times(b, c))
  {
  }

  lemma TimesZero(a: real)
    ensures Times(a, 0.0) == 0.0 && Times(0.0, a) == 0.0
    ensures Times(a, 1.0) == a && Times(1.0, a) == a
  {
  }

  lemma TimesPositive(a: real, b: real)
    requires a > 0.0 && b > 0.0
    ensures Times(a, b) > 0.0
  {
  }

  lemma SquareDefinite(a: real)
    ensures Times(a, a) >= 0.0
    ensures Times(a, a) == 0.0 <==> a == 0.0
  {
    hide Times;
    if a > 0.0 {
      TimesPositive(a, a);
    } else if a < 0.0 {
      TimesPositive(-a, -a);
      TimesNegate(a, -a);
      TimesNegate(a, a);
    } else {
      TimesZero(a);
    }
  }

  lemma SquareOfDifference(a: real, b: real)
    ensures Times(a - b, a - b) == Times(a, a) - 2.0 * Times(a, b) + Times(b, b)
    ensures 2.0 * Times(a, b) <= Times(a, a) + Times(b, b)
  {
    hide Times;
    TimesSubtract(a - b, a, b);
    TimesSubtract(a, a, b);
    TimesSubtract(b, a, b);
    TimesSymmetric(a, b);
    SquareDefinite(a - b);
  }

  /** Cancelling a nonzero factor. */
  lemma TimesCancel(c: real, a: real, b: real)
    requires c != 0.0 && Times(c, a) == Times(c, b)
    ensures a == b
  {
    hide Times;
    TimesSubtract(c, a, b);
    NoZeroDivisor(c, a - b);
  }

  lemma NoZeroDivisor(a: real, b: real)
    requires Times(a, b) == 0.0
    ensures a == 0.0 || b == 0.0
  {
  }

  // ----- The inner product is bilinear, symmetric and definite.

  lemma AxpyAt(u: Vector, c: real, v: Vector, i: int)
    requires |u| == |v|
    ensures At(Axpy(u, c, v), i) == At(u, i) + Times(c, At(v, i))
  {
    hide Times;
    TimesZero(c);
  }

  lemma {:induction false} DotSymmetric(n: nat, u: Vector, v: Vector)
    ensures Dot(n, u, v) == Dot(n, v, u)
  {
    hide Times;
    if n > 0 {
      DotSymmetric(n - 1, u, v);
      TimesSymmetric(At(u, n - 1), At(v, n - 1));
    }
  }

  /** The inner product is linear in its first argument. */
  lemma {:induction false} DotAxpy(n: nat, u: Vector, c: real, v: Vector, w: Vector)
    requires |u| == |v|
    ensures Dot(n, Axpy(u, c, v), w) == Dot(n, u, w) + Times(c, Dot(n, v, w))
  {
    hide Times, Axpy;
    if n == 0 {
      TimesZero(c);
    } else {
      DotAxpy(n - 1, u, c, v, w);
      var a, b, d := At(u, n - 1), At(v, n - 1), At(w, n - 1);
      AxpyAt(u, c, v, n - 1);
      TimesAdd(d, a, Times(c, b));
      TimesAssociative(c, b, d);
      TimesAdd(c, Dot(n - 1, v, w), Times(b, d));
    }
  }

  lemma {:induction false} DotNonnegative(n: nat, u: Vector)
    ensures Dot(n, u, u) >= 0.0
    ensures Dot(n, u, u) == 0.0 <==> forall i :: 0 <= i < n ==> At(u, i) == 0.0
  {
    hide Times;
    if n > 0 {
      DotNonnegative(n - 1, u);
      SquareDefinite(At(u, n - 1));
    }
  }

  /** 2 u.v <= u.u + v.v */
  lemma {:induction false} DotArithmeticGeometric(n: nat, u: Vector, v: Vector)
    ensures 2.0 * Dot(n, u, v) <= Dot(n, u, u) + Dot(n, v, v)
  {
    hide Times;
    if n > 0 {
      DotArithmeticGeometric(n - 1, u, v);
      SquareOfDifference(At(u, n - 1), At(v, n - 1));
    }
  }

  lemma {:induction false} DotZero(n: nat, u: Vector, v: Vector)
    requires forall i :: 0 <= i < n ==> At(u, i) == 0.0
    ensures Dot(n, u, v) == 0.0 && Dot(n, v, u) == 0.0
  {
    hide Times;
    if n > 0 {
      DotZero(n - 1, u, v);
      TimesZero(At(v, n - 1));
    }
  }

  /** The inner product reads only the first n entries. */
  lemma {:induction false} DotCongruent(n: nat, u: Vector, v: Vector, w: Vector)
    requires forall i :: 0 <= i < n ==> At(u, i) == At(v, i)
    ensures Dot(n, u, w) == Dot(n, v, w)
  {
    hide Times;
    if n > 0 {
      DotCongruent(n - 1, u, v, w);
    }
  }
}
