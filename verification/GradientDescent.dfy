/**
  Fixed-step gradient descent on f(p) = 1/2 p.Qp + b.p over exact reals, for every dimension.
 */
module GradientDescent {
  import opened Vectors

  datatype Quadratic = Quadratic(matrix: Matrix, linear: Vector)

  predicate Valid(q: Quadratic) {
    IsSquare(q.matrix) && |q.linear| == |q.matrix|
  }

  function Size(q: Quadratic): nat {
    |q.matrix|
  }

  function Entry(q: Quadratic, i: int, j: int): real {
    if 0 <= i < Size(q) then At(q.matrix[i], j) else 0.0
  }

  function MatrixRow(q: Quadratic, i: int): Vector {
    if 0 <= i < Size(q) then q.matrix[i] else []
  }

  /** The sum of u[i] * Q[i][j] * v[j] over the first `rows` rows and `columns` columns. */
  function Bilinear(q: Quadratic, rows: nat, columns: nat, u: Vector, v: Vector): real {
    if rows == 0 then 0.0
    else Bilinear(q, rows - 1, columns, u, v) + Times(At(u, rows - 1), Dot(columns, MatrixRow(q, rows - 1), v))
  }

  /** u.Qv */
  function Form(q: Quadratic, u: Vector, v: Vector): real {
    Bilinear(q, Size(q), Size(q), u, v)
  }

  function Objective(q: Quadratic, p: Vector): real {
    0.5 * Form(q, p, p) + Dot(Size(q), q.linear, p)
  }

  function Apply(q: Quadratic, p: Vector): (w: Vector)
    ensures |w| == Size(q)
  {
    seq(Size(q), i requires 0 <= i < Size(q) => Dot(Size(q), q.matrix[i], p))
  }

  function Gradient(q: Quadratic, p: Vector): (g: Vector)
    requires Valid(q)
    ensures |g| == Size(q)
  {
    seq(Size(q), i requires 0 <= i < Size(q) => Dot(Size(q), q.matrix[i], p) + q.linear[i])
  }

  function Next(q: Quadratic, step: real, p: Vector): (r: Vector)
    requires Valid(q) && |p| == Size(q)
    ensures |r| == Size(q)
  {
    Axpy(p, -step, Gradient(q, p))
  }

  /** The point after k iterations from the origin. */
  function Point(q: Quadratic, step: real, k: nat): (p: Vector)
    requires Valid(q)
    ensures |p| == Size(q)
  {
    if k == 0 then seq(Size(q), i => 0.0) else Next(q, step, Point(q, step, k - 1))
  }

  ghost predicate Symmetric(q: Quadratic) {
    forall i, j :: 0 <= i < Size(q) && 0 <= j < Size(q) ==> Entry(q, i, j) == Entry(q, j, i)
  }

  // ----- The form is bilinear.

  lemma {:induction false} BilinearLeft(q: Quadratic, k: nat, m: nat, u: Vector, c: real, v: Vector, w: Vector)
    requires |u| == |v|
    ensures Bilinear(q, k, m, Axpy(u, c, v), w) == Bilinear(q, k, m, u, w) + Times(c, Bilinear(q, k, m, v, w))
  {
    hide Times, Dot, Axpy, At;
    if k == 0 {
      TimesZero(c);
    } else {
      var d := Dot(m, MatrixRow(q, k - 1), w);
      BilinearLeft(q, k - 1, m, u, c, v, w);
      AxpyAt(u, c, v, k - 1);
      TimesAdd(d, At(u, k - 1), Times(c, At(v, k - 1)));
      TimesAssociative(c, At(v, k - 1), d);
      TimesAdd(c, Bilinear(q, k - 1, m, v, w), Times(At(v, k - 1), d));
    }
  }

  lemma DotRight(n: nat, w: Vector, u: Vector, c: real, v: Vector)
    requires |u| == |v|
    ensures Dot(n, w, Axpy(u, c, v)) == Dot(n, w, u) + Times(c, Dot(n, w, v))
  {
    hide Times, Dot, Axpy;
    DotAxpy(n, u, c, v, w);
    DotSymmetric(n, w, Axpy(u, c, v));
    DotSymmetric(n, w, u);
    DotSymmetric(n, w, v);
  }

  lemma {:induction false} BilinearRight(q: Quadratic, k: nat, m: nat, w: Vector, u: Vector, c: real, v: Vector)
    requires |u| == |v|
    ensures Bilinear(q, k, m, w, Axpy(u, c, v)) == Bilinear(q, k, m, w, u) + Times(c, Bilinear(q, k, m, w, v))
  {
    hide Times, Dot, Axpy, At;
    if k == 0 {
      TimesZero(c);
    } else {
      var row, a := MatrixRow(q, k - 1), At(w, k - 1);
      BilinearRight(q, k - 1, m, w, u, c, v);
      DotRight(m, row, u, c, v);
      TimesAdd(a, Dot(m, row, u), Times(c, Dot(m, row, v)));
      TimesAssociative(a, c, Dot(m, row, v));
      TimesSymmetric(a, c);
      TimesAssociative(c, a, Dot(m, row, v));
      TimesAdd(c, Bilinear(q, k - 1, m, w, v), Times(a, Dot(m, row, v)));
    }
  }

  /** u.Qv, as the inner product of u with Qv. */
  lemma {:induction false} FormIsDot(q: Quadratic, k: nat, u: Vector, v: Vector)
    requires k <= Size(q)
    ensures Bilinear(q, k, Size(q), u, v) == Dot(k, u, Apply(q, v))
  {
    hide Times;
    if k > 0 {
      FormIsDot(q, k - 1, u, v);
    }
  }

  // ----- For a symmetric matrix the form is symmetric.

  /** Column j of the matrix against the first k entries of u. */
  function ColumnDot(q: Quadratic, k: nat, j: int, u: Vector): real {
    if k == 0 then 0.0 else ColumnDot(q, k - 1, j, u) + Times(At(u, k - 1), Entry(q, k - 1, j))
  }

  lemma {:induction false} BilinearColumn(q: Quadratic, k: nat, m: nat, u: Vector, v: Vector)
    requires m > 0
    ensures Bilinear(q, k, m, u, v) == Bilinear(q, k, m - 1, u, v) + Times(ColumnDot(q, k, m - 1, u), At(v, m - 1))
  {
    hide Times;
    if k == 0 {
      TimesZero(At(v, m - 1));
    } else {
      BilinearColumn(q, k - 1, m, u, v);
      var a, e, b := At(u, k - 1), Entry(q, k - 1, m - 1), At(v, m - 1);
      assert At(MatrixRow(q, k - 1), m - 1) == e;
      TimesAdd(a, Dot(m - 1, MatrixRow(q, k - 1), v), Times(e, b));
      TimesAdd(b, ColumnDot(q, k - 1, m - 1, u), Times(a, e));
      TimesAssociative(a, e, b);
    }
  }

  lemma {:induction false} ColumnIsRow(q: Quadratic, k: nat, j: nat, u: Vector)
    requires Valid(q) && Symmetric(q) && k <= Size(q) && j < Size(q)
    ensures ColumnDot(q, k, j, u) == Dot(k, MatrixRow(q, j), u)
  {
    hide Times;
    if k > 0 {
      ColumnIsRow(q, k - 1, j, u);
      assert Entry(q, k - 1, j) == Entry(q, j, k - 1);
      TimesSymmetric(At(u, k - 1), Entry(q, j, k - 1));
    }
  }

  lemma {:induction false} BilinearSymmetric(q: Quadratic, k: nat, u: Vector, v: Vector)
    requires Valid(q) && Symmetric(q) && k <= Size(q)
    ensures Bilinear(q, k, k, u, v) == Bilinear(q, k, k, v, u)
  {
    hide Times, ColumnDot, At, MatrixRow, Symmetric;
    if k > 0 {
      var row, a, b := MatrixRow(q, k - 1), At(u, k - 1), At(v, k - 1);
      BilinearSymmetric(q, k - 1, u, v);
      BilinearColumn(q, k - 1, k, u, v);
      BilinearColumn(q, k - 1, k, v, u);
      ColumnIsRow(q, k - 1, k - 1, u);
      ColumnIsRow(q, k - 1, k - 1, v);
      var e, x, y := At(row, k - 1), Dot(k - 1, row, u), Dot(k - 1, row, v);
      TimesAdd(a, y, Times(e, b));
      TimesAdd(b, x, Times(e, a));
      TimesSymmetric(a, y);
      TimesSymmetric(b, x);
      DiagonalTerm(a, e, b);
    }
  }

  lemma DiagonalTerm(a: real, e: real, b: real)
    ensures Times(a, Times(e, b)) == Times(b, Times(e, a))
  {
  }

  // ----- One step.

  /** The rate at which f falls along -d: half of d.Qp + p.Qd, plus b.d. */
  function Slope(q: Quadratic, p: Vector, d: Vector): real {
    0.5 * (Form(q, d, p) + Form(q, p, d)) + Dot(Size(q), q.linear, d)
  }

  /** f(p - c d) == f(p) - c slope + c^2 / 2 d.Qd, for every matrix, symmetric or not. */
  lemma ObjectiveAlong(q: Quadratic, p: Vector, c: real, d: Vector)
    requires |p| == |d|
    ensures Objective(q, Axpy(p, -c, d))
         == Objective(q, p) - Times(c, Slope(q, p, d)) + 0.5 * Times(c, Times(c, Form(q, d, d)))
  {
    hide Times, Dot, Bilinear, Axpy;
    var n, y := Size(q), Axpy(p, -c, d);
    BilinearLeft(q, n, n, p, -c, d, y);
    BilinearRight(q, n, n, p, p, -c, d);
    BilinearRight(q, n, n, d, p, -c, d);
    DotRight(n, q.linear, p, -c, d);
    AlongScalars(c, Form(q, d, p), Form(q, p, d), Form(q, d, d), Dot(n, q.linear, d));
  }

  lemma AlongScalars(c: real, a: real, b: real, e: real, l: real)
    ensures 0.5 * (Times(-c, b) + Times(-c, a + Times(-c, e))) + Times(-c, l)
         == -Times(c, 0.5 * (a + b) + l) + 0.5 * Times(c, Times(c, e))
  {
    hide Times;
    TimesNegate(c, b);
    TimesNegate(c, l);
    TimesNegate(c, e);
    TimesNegate(c, Times(c, e));
    TimesNegate(c, a + Times(-c, e));
    TimesSubtract(c, a, Times(c, e));
    TimesAdd(c, 0.5 * (a + b), l);
    TimesAdd(c, a, b);
    Halve(c, a + b);
  }

  lemma Halve(c: real, a: real)
    ensures Times(c, 0.5 * a) == 0.5 * Times(c, a)
  {
  }

  lemma GradientIs(q: Quadratic, p: Vector, d: Vector, k: nat)
    requires Valid(q) && k <= Size(q)
    ensures Dot(k, d, Gradient(q, p)) == Dot(k, d, Apply(q, p)) + Dot(k, d, q.linear)
  {
    hide Times;
    if k > 0 {
      GradientIs(q, p, d, k - 1);
      TimesAdd(At(d, k - 1), At(Apply(q, p), k - 1), At(q.linear, k - 1));
    }
  }

  /** For a symmetric matrix the slope along the gradient is g.g. */
  lemma SlopeOfSymmetric(q: Quadratic, p: Vector)
    requires Valid(q) && Symmetric(q)
    ensures var g := Gradient(q, p); Slope(q, p, g) == Dot(Size(q), g, g)
  {
    hide Times, Dot, Bilinear, Gradient, Apply, Symmetric;
    var n, g := Size(q), Gradient(q, p);
    BilinearSymmetric(q, n, p, g);
    FormIsDot(q, n, g, p);
    GradientIs(q, p, g, n);
    DotSymmetric(n, q.linear, g);
  }

  /** f(p - eta g) == f(p) - eta g.g + eta^2 / 2 g.Qg */
  lemma StepIdentity(q: Quadratic, step: real, p: Vector)
    requires Valid(q) && Symmetric(q) && |p| == Size(q)
    ensures var g := Gradient(q, p);
            Objective(q, Next(q, step, p))
            == Objective(q, p) - Times(step, Dot(Size(q), g, g)) + 0.5 * Times(step, Times(step, Form(q, g, g)))
  {
    hide Times, Dot, Bilinear, Gradient, Axpy, Objective, Form, Slope, Symmetric;
    SlopeOfSymmetric(q, p);
    ObjectiveAlong(q, p, step, Gradient(q, p));
  }

  /** The next gradient is g - eta Qg. */
  lemma NextGradient(q: Quadratic, step: real, p: Vector)
    requires Valid(q) && |p| == Size(q)
    ensures var g := Gradient(q, p); Gradient(q, Next(q, step, p)) == Axpy(g, -step, Apply(q, g))
  {
    hide Times, Dot, Axpy;
    var n, g := Size(q), Gradient(q, p);
    var left, right := Gradient(q, Next(q, step, p)), Axpy(g, -step, Apply(q, g));
    forall i | 0 <= i < n ensures left[i] == right[i] {
      DotRight(n, q.matrix[i], p, -step, g);
      AxpyAt(g, -step, Apply(q, g), i);
    }
  }

  /** A step does not raise the objective, whatever the matrix, exactly when eta g.Qg <= 2 slope. */
  lemma DescendsIff(q: Quadratic, step: real, p: Vector)
    requires Valid(q) && |p| == Size(q) && step > 0.0
    ensures var g := Gradient(q, p);
            Objective(q, Next(q, step, p)) <= Objective(q, p) <==> Times(step, Form(q, g, g)) <= 2.0 * Slope(q, p, g)
  {
    hide Times, Gradient, Axpy, Objective, Form, Slope;
    var g := Gradient(q, p);
    ObjectiveAlong(q, p, step, g);
    var a, b := Slope(q, p, g), Times(step, Form(q, g, g));
    TimesSubtract(step, 2.0 * a, b);
    Double(step, a);
    SignOfProduct(step, 2.0 * a - b);
  }

  lemma Double(c: real, a: real)
    ensures Times(c, 2.0 * a) == 2.0 * Times(c, a)
  {
  }

  lemma SignOfProduct(c: real, a: real)
    requires c > 0.0
    ensures Times(c, a) >= 0.0 <==> a >= 0.0
  {
    hide Times;
    if a > 0.0 {
      TimesPositive(c, a);
    } else if a < 0.0 {
      TimesPositive(c, -a);
      TimesNegate(c, a);
    } else {
      TimesZero(c);
    }
  }

  // ----- The start.

  /** Runs start at the origin, where the objective is zero, and first move against the linear term. */
  lemma FirstStep(q: Quadratic, step: real)
    requires Valid(q)
    ensures Objective(q, Point(q, step, 0)) == 0.0
    ensures forall i :: 0 <= i < |q.linear| ==> Point(q, step, 1)[i] == -step * q.linear[i]
  {
    hide Dot, Bilinear;
    var n, origin := Size(q), Point(q, step, 0);
    FormIsDot(q, n, origin, origin);
    DotZero(n, origin, Apply(q, origin));
    DotZero(n, origin, q.linear);
    forall i | 0 <= i < n
      ensures Point(q, step, 1)[i] == -step * q.linear[i]
    {
      DotZero(n, origin, q.matrix[i]);
      AxpyAt(origin, -step, Gradient(q, origin), i);
    }
  }

  // ----- Whole runs.

  /** The step-size condition of iteration i: eta g.Qg <= 2 g.g. */
  ghost predicate StepSmallEnough(q: Quadratic, step: real, i: nat)
    requires Valid(q)
  {
    var g := Gradient(q, Point(q, step, i));
    Times(step, Form(q, g, g)) <= 2.0 * Dot(Size(q), g, g)
  }

  /** The objective after i iterations. */
  function ObjectiveAt(q: Quadratic, step: real, i: nat): real
    requires Valid(q)
  {
    Objective(q, Point(q, step, i))
  }

  lemma StepDescendsIff(q: Quadratic, step: real, i: nat)
    requires Valid(q) && Symmetric(q) && step > 0.0
    ensures ObjectiveAt(q, step, i + 1) <= ObjectiveAt(q, step, i) <==> StepSmallEnough(q, step, i)
  {
    hide Times, Dot, Gradient, Axpy, Objective, Form, Slope, Next, Symmetric;
    var p := Point(q, step, i);
    DescendsIff(q, step, p);
    SlopeOfSymmetric(q, p);
  }

  /** Over a run with a symmetric matrix the objective never rises exactly when the condition
      holds at every iteration. */
  lemma {:induction false} RunDescendsIff(q: Quadratic, step: real, k: nat)
    requires Valid(q) && Symmetric(q) && step > 0.0
    ensures (forall i: nat, j: nat :: i <= j <= k ==> ObjectiveAt(q, step, j) <= ObjectiveAt(q, step, i))
         <==> forall i: nat :: i < k ==> StepSmallEnough(q, step, i)
  {
    hide ObjectiveAt, StepSmallEnough, Symmetric;
    if forall i: nat :: i < k ==> StepSmallEnough(q, step, i) {
      forall i: nat, j: nat | i <= j <= k ensures ObjectiveAt(q, step, j) <= ObjectiveAt(q, step, i) {
        DescendsBetween(q, step, i, j);
      }
    } else {
      var i: nat :| i < k && !StepSmallEnough(q, step, i);
      StepDescendsIff(q, step, i);
      assert !(ObjectiveAt(q, step, i + 1) <= ObjectiveAt(q, step, i));
    }
  }

  lemma {:induction false} DescendsBetween(q: Quadratic, step: real, i: nat, j: nat)
    requires Valid(q) && Symmetric(q) && step > 0.0 && i <= j
    requires forall l: nat :: i <= l < j ==> StepSmallEnough(q, step, l)
    ensures ObjectiveAt(q, step, j) <= ObjectiveAt(q, step, i)
  {
    hide ObjectiveAt, StepSmallEnough, Symmetric;
    if i < j {
      DescendsBetween(q, step, i, j - 1);
      StepDescendsIff(q, step, j - 1);
    }
  }

  /** The worker never asks for symmetry.  Without it the condition is not enough: here it holds
      at the second iteration and the objective still rises. */
  lemma AsymmetricMatrixCanAscend()
    ensures var q := Quadratic([[0.0, 2.0], [0.0, 0.0]], [2.0, 1.0]);
            && Valid(q) && StepSmallEnough(q, 1.0, 1)
            && Objective(q, Point(q, 1.0, 2)) > Objective(q, Point(q, 1.0, 1))
  {
    var q := Quadratic([[0.0, 2.0], [0.0, 0.0]], [2.0, 1.0]);
    assert Valid(q) && Size(q) == 2;
    var p0 := Point(q, 1.0, 0);
    forall p: Vector
      ensures Dot(2, [0.0, 2.0], p) == 2.0 * At(p, 1)
      ensures Dot(2, [0.0, 0.0], p) == 0.0
      ensures Dot(2, [2.0, 1.0], p) == 2.0 * At(p, 0) + At(p, 1)
      ensures Form(q, p, p) == At(p, 0) * (2.0 * At(p, 1))
    {
      TwoTerms([0.0, 2.0], p);
      TwoTerms([0.0, 0.0], p);
      TwoTerms([2.0, 1.0], p);
      assert MatrixRow(q, 0) == [0.0, 2.0] && MatrixRow(q, 1) == [0.0, 0.0];
      assert Bilinear(q, 1, 2, p, p) == Times(At(p, 0), Dot(2, [0.0, 2.0], p));
      assert Bilinear(q, 2, 2, p, p) == Times(At(p, 0), Dot(2, [0.0, 2.0], p)) + Times(At(p, 1), Dot(2, [0.0, 0.0], p));
    }
    assert p0 == [0.0, 0.0];
    assert Gradient(q, p0) == [2.0, 1.0];
    assert Point(q, 1.0, 1) == [-2.0, -1.0];
    assert Gradient(q, [-2.0, -1.0]) == [0.0, 1.0];
    assert Point(q, 1.0, 2) == [-2.0, -2.0];
    TwoTerms([0.0, 1.0], [0.0, 1.0]);
    assert Objective(q, [-2.0, -1.0]) == -3.0;
    assert Objective(q, [-2.0, -2.0]) == -2.0;
  }

  lemma TwoTerms(u: Vector, v: Vector)
    ensures Dot(2, u, v) == Times(At(u, 0), At(v, 0)) + Times(At(u, 1), At(v, 1))
  {
    assert Dot(1, u, v) == Times(At(u, 0), At(v, 0));
  }

  // ----- The worker's loop.

  datatype Failure = MatrixInvalid | MatrixNotSquare | LinearInvalid | DimensionMismatch | BudgetInvalid

  datatype Outcome =
    | Estimate(minimizer: Vector, objective: real, gradientSquare: real, accepted: bool)
    | Failed(failure: Failure)

  /** gradientSquare is the square of the reported gradient norm; the norm is within a tolerance
      exactly when the tolerance is nonnegative and its square is not exceeded. */
  method Optimization(matrix: Matrix, linear: Vector, iterations: int, step: real, gradientTolerance: real)
    returns (r: Outcome)
    ensures r == Failed(MatrixInvalid) <==> matrix == [] || [] in matrix
    ensures r == Failed(MatrixNotSquare) <==> matrix != [] && [] !in matrix && !IsSquare(matrix)
    ensures r == Failed(LinearInvalid) <==> matrix != [] && [] !in matrix && IsSquare(matrix) && linear == []
    ensures r == Failed(DimensionMismatch) <==>
      matrix != [] && [] !in matrix && IsSquare(matrix) && linear != [] && |linear| != |matrix|
    ensures r == Failed(BudgetInvalid) <==>
      && matrix != [] && [] !in matrix && IsSquare(matrix) && |linear| == |matrix|
      && (iterations < 1 || iterations > 1_000_000 || step <= 0.0)
    ensures r.Estimate? ==>
      var q := Quadratic(matrix, linear);
      && Valid(q) && 1 <= iterations <= 1_000_000 && step > 0.0
      && r.minimizer == Point(q, step, iterations)
      && r.objective == Objective(q, r.minimizer)
      && r.gradientSquare == Dot(Size(q), Gradient(q, r.minimizer), Gradient(q, r.minimizer))
      && (r.accepted <==> gradientTolerance >= 0.0 && r.gradientSquare <= gradientTolerance * gradientTolerance)
  {
    hide Dot, Objective, Gradient;
    if matrix == [] || [] in matrix {
      return Failed(MatrixInvalid);
    }
    if !IsSquare(matrix) {
      return Failed(MatrixNotSquare);
    }
    if linear == [] {
      return Failed(LinearInvalid);
    }
    if |linear| != |matrix| {
      return Failed(DimensionMismatch);
    }
    if iterations < 1 || iterations > 1_000_000 || step <= 0.0 {
      return Failed(BudgetInvalid);
    }
    var q := Quadratic(matrix, linear);
    var point: Vector := seq(|linear|, i => 0.0);
    var k := 0;
    while k < iterations
      invariant 0 <= k <= iterations
      invariant point == Point(q, step, k)
    {
      var gradient := Gradient(q, point);
      point := Axpy(point, -step, gradient);
      k := k + 1;
    }
    var gradient := Gradient(q, point);
    var square := Dot(|linear|, gradient, gradient);
    r := Estimate(point, Objective(q, point), square,
                  gradientTolerance >= 0.0 && square <= gradientTolerance * gradientTolerance);
  }
}
