/**
  Gauss-Jordan elimination with partial pivoting over exact reals, for every dimension.
  `Reduce` is the elimination as a function; `SolveLinearSystem` rewrites the rows of the
  augmented matrix in place and is proved to compute it.
 */
module LinearSolver {
  import opened Vectors

  /** Pivots up to this size are taken for zero. */
  const PIVOT_TOLERANCE: real := 0.000000000001

  function Abs(a: real): real {
    if a < 0.0 then -a else a
  }

  /** n rows of n + 1 entries: the matrix with the right-hand side as last column. */
  predicate IsAugmented(n: nat, rows: Matrix) {
    |rows| == n && forall i :: 0 <= i < n ==> |rows[i]| == n + 1
  }

  function Augment(matrix: Matrix, vector: Vector): (rows: Matrix)
    requires IsSquare(matrix) && |vector| == |matrix|
    ensures IsAugmented(|matrix|, rows)
  {
    seq(|matrix|, i requires 0 <= i < |matrix| => matrix[i] + [vector[i]])
  }

  // ----- Systems of equations.

  /** matrix . x == vector */
  ghost predicate Satisfies(matrix: Matrix, vector: Vector, x: Vector)
    requires |vector| == |matrix|
  {
    |x| == |matrix| && forall i :: 0 <= i < |matrix| ==> Dot(|matrix|, matrix[i], x) == vector[i]
  }

  ghost predicate InKernel(matrix: Matrix, x: Vector) {
    |x| == |matrix| && forall i :: 0 <= i < |matrix| ==> Dot(|matrix|, matrix[i], x) == 0.0
  }

  ghost predicate IsZeroVector(x: Vector) {
    forall i :: 0 <= i < |x| ==> x[i] == 0.0
  }

  /** The left side less t times the right side: t is 1 for the system and 0 for the kernel. */
  function Residue(n: nat, row: Vector, x: Vector, t: real): real {
    Dot(n, row, x) - Times(t, At(row, n))
  }

  ghost predicate Annihilates(n: nat, rows: Matrix, x: Vector, t: real)
    requires |rows| == n
  {
    forall i :: 0 <= i < n ==> Residue(n, rows[i], x, t) == 0.0
  }

  /** The two systems have the same solutions, and so do their homogeneous parts. */
  ghost predicate Equivalent(n: nat, rows: Matrix, others: Matrix)
    requires |rows| == n && |others| == n
  {
    forall x: Vector, t: real :: Annihilates(n, rows, x, t) <==> Annihilates(n, others, x, t)
  }

  // ----- Row operations.

  function Swap(rows: Matrix, i: nat, j: nat): (r: Matrix)
    requires i < |rows| && j < |rows|
    ensures |r| == |rows|
  {
    rows[i := rows[j]][j := rows[i]]
  }

  function Divide(row: Vector, scale: real): (r: Vector)
    requires scale != 0.0
    ensures |r| == |row|
  {
    seq(|row|, j requires 0 <= j < |row| => row[j] / scale)
  }

  /** Row i less its entry in `column` times the pivot row. */
  function Cleared(rows: Matrix, column: nat, i: nat): (r: Vector)
    requires i < |rows| && column < |rows| && |rows[i]| == |rows[column]|
    ensures |r| == |rows[i]|
  {
    if i == column then rows[i] else Axpy(rows[i], -At(rows[i], column), rows[column])
  }

  function ClearColumn(n: nat, rows: Matrix, column: nat): (r: Matrix)
    requires IsAugmented(n, rows) && column < n
    ensures IsAugmented(n, r)
  {
    seq(n, i requires 0 <= i < n => Cleared(rows, column, i))
  }

  /** The first row from `column` on with the largest entry in that column, among rows below `hi`. */
  function PivotRow(n: nat, rows: Matrix, column: nat, hi: nat): (k: nat)
    requires IsAugmented(n, rows) && column < hi <= n
    ensures column <= k < hi
    ensures forall i :: column <= i < hi ==> Abs(At(rows[i], column)) <= Abs(At(rows[k], column))
    ensures forall i :: column <= i < k ==> Abs(At(rows[i], column)) < Abs(At(rows[k], column))
  {
    if hi == column + 1 then column
    else
      var k := PivotRow(n, rows, column, hi - 1);
      if Abs(At(rows[hi - 1], column)) > Abs(At(rows[k], column)) then hi - 1 else k
  }

  function Pivoted(n: nat, rows: Matrix, column: nat, k: nat): (r: Matrix)
    requires IsAugmented(n, rows) && column <= k < n && At(rows[k], column) != 0.0
    ensures IsAugmented(n, r)
  {
    var swapped := Swap(rows, column, k);
    swapped[column := Divide(swapped[column], At(rows[k], column))]
  }

  datatype Reduction = Reduced(rows: Matrix, pivots: seq<real>) | Stuck(rows: Matrix, column: nat)

  /** The elimination from `column` on; stuck when every candidate pivot is within `tolerance`. */
  function Reduce(n: nat, rows: Matrix, column: nat, tolerance: real): (r: Reduction)
    requires IsAugmented(n, rows) && column <= n && tolerance >= 0.0
    ensures IsAugmented(n, r.rows)
    ensures r.Stuck? ==> r.column < n
    ensures r.Reduced? ==> |r.pivots| == n - column && forall i :: 0 <= i < |r.pivots| ==> r.pivots[i] > tolerance
    decreases n - column
  {
    if column == n then Reduced(rows, [])
    else
      var k := PivotRow(n, rows, column, n);
      var pivot := At(rows[k], column);
      if Abs(pivot) <= tolerance then Stuck(rows, column)
      else
        match Reduce(n, ClearColumn(n, Pivoted(n, rows, column, k), column), column + 1, tolerance)
        case Reduced(rest, pivots) => Reduced(rest, [Abs(pivot)] + pivots)
        case Stuck(rest, at) => Stuck(rest, at)
  }

  // ----- Row operations keep the solutions.

  lemma ResidueAxpy(n: nat, u: Vector, c: real, v: Vector, x: Vector, t: real)
    requires |u| == |v|
    ensures Residue(n, Axpy(u, c, v), x, t) == Residue(n, u, x, t) + Times(c, Residue(n, v, x, t))
  {
    hide Times, Dot, Axpy, At;
    DotAxpy(n, u, c, v, x);
    AxpyAt(u, c, v, n);
    TimesAdd(t, At(u, n), Times(c, At(v, n)));
    TimesAssociative(t, c, At(v, n));
    TimesSymmetric(t, c);
    TimesAssociative(c, t, At(v, n));
    TimesSubtract(c, Dot(n, v, x), Times(t, At(v, n)));
  }

  lemma DivideAt(row: Vector, scale: real, j: int)
    requires scale != 0.0
    ensures Times(scale, At(Divide(row, scale), j)) == At(row, j)
  {
  }

  lemma {:induction false} DivideDot(n: nat, row: Vector, scale: real, x: Vector)
    requires scale != 0.0
    ensures Times(scale, Dot(n, Divide(row, scale), x)) == Dot(n, row, x)
  {
    hide Times, Divide;
    if n == 0 {
      TimesZero(scale);
    } else {
      var d := Divide(row, scale);
      DivideDot(n - 1, row, scale, x);
      DivideAt(row, scale, n - 1);
      TimesAssociative(scale, At(d, n - 1), At(x, n - 1));
      TimesAdd(scale, Dot(n - 1, d, x), Times(At(d, n - 1), At(x, n - 1)));
    }
  }

  lemma ResidueDivide(n: nat, row: Vector, scale: real, x: Vector, t: real)
    requires scale != 0.0
    ensures Residue(n, Divide(row, scale), x, t) == 0.0 <==> Residue(n, row, x, t) == 0.0
  {
    hide Times, Divide, Dot, At;
    var d := Divide(row, scale);
    DivideDot(n, row, scale, x);
    DivideAt(row, scale, n);
    TimesAssociative(t, scale, At(d, n));
    TimesSymmetric(t, scale);
    TimesAssociative(scale, t, At(d, n));
    TimesSubtract(scale, Dot(n, d, x), Times(t, At(d, n)));
    assert Times(scale, Residue(n, d, x, t)) == Residue(n, row, x, t);
    TimesZero(scale);
    if Residue(n, row, x, t) == 0.0 {
      NoZeroDivisor(scale, Residue(n, d, x, t));
    }
  }

  lemma PivotedEquivalent(n: nat, rows: Matrix, column: nat, k: nat)
    requires IsAugmented(n, rows) && column <= k < n && At(rows[k], column) != 0.0
    ensures Equivalent(n, Pivoted(n, rows, column, k), rows)
  {
    var r := Pivoted(n, rows, column, k);
    forall x: Vector, t: real ensures Annihilates(n, r, x, t) <==> Annihilates(n, rows, x, t) {
      hide Residue, Divide;
      ResidueDivide(n, rows[k], At(rows[k], column), x, t);
      if Annihilates(n, r, x, t) {
        forall i | 0 <= i < n ensures Residue(n, rows[i], x, t) == 0.0 {
          assert Residue(n, r[column], x, t) == 0.0;
          assert Residue(n, r[k], x, t) == 0.0;
          assert Residue(n, r[i], x, t) == 0.0;
        }
      }
      if Annihilates(n, rows, x, t) {
        assert Residue(n, rows[column], x, t) == 0.0;
        assert Residue(n, rows[k], x, t) == 0.0;
      }
    }
  }

  lemma ClearedResidue(n: nat, rows: Matrix, column: nat, i: nat, x: Vector, t: real)
    requires IsAugmented(n, rows) && column < n && i < n
    requires Residue(n, rows[column], x, t) == 0.0
    ensures Residue(n, Cleared(rows, column, i), x, t) == Residue(n, rows[i], x, t)
  {
    hide Times, Residue, Axpy;
    if i != column {
      var c := -At(rows[i], column);
      ResidueAxpy(n, rows[i], c, rows[column], x, t);
      TimesZero(c);
    }
  }

  lemma ClearColumnEquivalent(n: nat, rows: Matrix, column: nat)
    requires IsAugmented(n, rows) && column < n
    ensures Equivalent(n, ClearColumn(n, rows, column), rows)
  {
    hide Residue, Cleared;
    var r := ClearColumn(n, rows, column);
    assert r[column] == rows[column] by { ClearedPivot(n, rows, column); }
    forall x: Vector, t: real ensures Annihilates(n, r, x, t) <==> Annihilates(n, rows, x, t) {
      if Annihilates(n, r, x, t) || Annihilates(n, rows, x, t) {
        assert Residue(n, rows[column], x, t) == 0.0;
        forall i | 0 <= i < n ensures Residue(n, r[i], x, t) == Residue(n, rows[i], x, t) {
          ClearedResidue(n, rows, column, i, x, t);
        }
      }
    }
  }

  lemma ClearedPivot(n: nat, rows: Matrix, column: nat)
    requires IsAugmented(n, rows) && column < n
    ensures Cleared(rows, column, column) == rows[column]
  {
  }

  // ----- Columns become unit columns.

  function Kronecker(i: int, j: int): real {
    if i == j then 1.0 else 0.0
  }

  /** The first `column` columns are those of the identity. */
  ghost predicate UnitColumns(n: nat, rows: Matrix, column: nat)
    requires IsAugmented(n, rows)
  {
    forall i, j :: 0 <= i < n && 0 <= j < column ==> At(rows[i], j) == Kronecker(i, j)
  }

  lemma DivideEntries(row: Vector, scale: real, j: int)
    requires scale != 0.0
    ensures At(row, j) == 0.0 ==> At(Divide(row, scale), j) == 0.0
    ensures At(row, j) == scale ==> At(Divide(row, scale), j) == 1.0
  {
  }

  lemma PivotedColumns(n: nat, rows: Matrix, column: nat, k: nat)
    requires IsAugmented(n, rows) && column <= k < n && At(rows[k], column) != 0.0
    requires UnitColumns(n, rows, column)
    ensures UnitColumns(n, Pivoted(n, rows, column, k), column)
    ensures At(Pivoted(n, rows, column, k)[column], column) == 1.0
  {
    hide Divide;
    var r, scale := Pivoted(n, rows, column, k), At(rows[k], column);
    DivideEntries(rows[k], scale, column);
    forall i, j | 0 <= i < n && 0 <= j < column ensures At(r[i], j) == Kronecker(i, j) {
      DivideEntries(rows[k], scale, j);
      assert At(rows[k], j) == Kronecker(k, j);
      assert At(rows[column], j) == Kronecker(column, j);
    }
  }

  lemma ClearedColumns(n: nat, rows: Matrix, column: nat)
    requires IsAugmented(n, rows) && column < n
    requires UnitColumns(n, rows, column) && At(rows[column], column) == 1.0
    ensures UnitColumns(n, ClearColumn(n, rows, column), column + 1)
  {
    hide Axpy, Times;
    var r := ClearColumn(n, rows, column);
    forall i, j | 0 <= i < n && 0 <= j < column + 1 ensures At(r[i], j) == Kronecker(i, j) {
      if i != column {
        var c := -At(rows[i], column);
        AxpyAt(rows[i], c, rows[column], j);
        TimesZero(c);
        if j < column { assert At(rows[column], j) == Kronecker(column, j); }
      }
    }
  }

  lemma EquivalentTransitive(n: nat, a: Matrix, b: Matrix, c: Matrix)
    requires |a| == n && |b| == n && |c| == n
    requires Equivalent(n, a, b) && Equivalent(n, b, c)
    ensures Equivalent(n, a, c)
  {
    hide Annihilates;
  }

  /** Every step of the elimination keeps the solution set, and the columns already treated. */
  lemma {:induction false} ReduceEquivalent(n: nat, rows: Matrix, column: nat, tolerance: real)
    requires IsAugmented(n, rows) && column <= n && tolerance >= 0.0
    requires UnitColumns(n, rows, column)
    ensures var r := Reduce(n, rows, column, tolerance);
            && Equivalent(n, r.rows, rows)
            && UnitColumns(n, r.rows, if r.Stuck? then r.column else n)
            && (r.Stuck? ==> forall i :: r.column <= i < n ==> Abs(At(r.rows[i], r.column)) <= tolerance)
    decreases n - column
  {
    hide Annihilates, UnitColumns, ClearColumn, Pivoted, At;
    if column < n {
      var k := PivotRow(n, rows, column, n);
      if Abs(At(rows[k], column)) > tolerance {
        var pivoted := Pivoted(n, rows, column, k);
        var cleared := ClearColumn(n, pivoted, column);
        PivotedColumns(n, rows, column, k);
        ClearedColumns(n, pivoted, column);
        PivotedEquivalent(n, rows, column, k);
        ClearColumnEquivalent(n, pivoted, column);
        EquivalentTransitive(n, cleared, pivoted, rows);
        ReduceEquivalent(n, cleared, column + 1, tolerance);
        EquivalentTransitive(n, Reduce(n, cleared, column + 1, tolerance).rows, cleared, rows);
      }
    }
  }

  // ----- Reading the solution off the reduced rows.

  lemma {:induction false} UnitRowDot(n: nat, row: Vector, i: nat, x: Vector)
    requires forall j :: 0 <= j < n ==> At(row, j) == Kronecker(i, j)
    ensures Dot(n, row, x) == if i < n then At(x, i) else 0.0
  {
    hide Times;
    if n > 0 {
      UnitRowDot(n - 1, row, i, x);
      TimesZero(At(x, n - 1));
    }
  }

  function LastColumn(n: nat, rows: Matrix): (x: Vector)
    requires IsAugmented(n, rows)
    ensures |x| == n
  {
    seq(n, i requires 0 <= i < n => rows[i][n])
  }

  lemma ReducedSolutions(n: nat, rows: Matrix, x: Vector, t: real)
    requires IsAugmented(n, rows) && UnitColumns(n, rows, n)
    ensures Annihilates(n, rows, x, t) <==> forall i :: 0 <= i < n ==> At(x, i) == Times(t, rows[i][n])
  {
    hide Times, Dot, Kronecker;
    forall i | 0 <= i < n ensures Residue(n, rows[i], x, t) == At(x, i) - Times(t, rows[i][n]) {
      UnitRowDot(n, rows[i], i, x);
    }
  }

  lemma AugmentResidue(matrix: Matrix, vector: Vector, i: nat, x: Vector, t: real)
    requires IsSquare(matrix) && |vector| == |matrix| && i < |matrix|
    ensures Residue(|matrix|, Augment(matrix, vector)[i], x, t) == Dot(|matrix|, matrix[i], x) - Times(t, vector[i])
  {
    hide Times, Dot;
    DotCongruent(|matrix|, Augment(matrix, vector)[i], matrix[i], x);
  }

  lemma AugmentSystem(matrix: Matrix, vector: Vector, x: Vector)
    requires IsSquare(matrix) && |vector| == |matrix| && |x| == |matrix|
    ensures Satisfies(matrix, vector, x) <==> Annihilates(|matrix|, Augment(matrix, vector), x, 1.0)
    ensures InKernel(matrix, x) <==> Annihilates(|matrix|, Augment(matrix, vector), x, 0.0)
  {
    hide Times, Dot, Residue, Augment;
    var rows := Augment(matrix, vector);
    forall i | 0 <= i < |matrix|
      ensures Residue(|matrix|, rows[i], x, 1.0) == Dot(|matrix|, matrix[i], x) - vector[i]
      ensures Residue(|matrix|, rows[i], x, 0.0) == Dot(|matrix|, matrix[i], x)
    {
      AugmentResidue(matrix, vector, i, x, 1.0);
      AugmentResidue(matrix, vector, i, x, 0.0);
      TimesZero(vector[i]);
    }
  }

  /** The elimination of a system. */
  function Elimination(matrix: Matrix, vector: Vector, tolerance: real): (r: Reduction)
    requires IsSquare(matrix) && |vector| == |matrix| && tolerance >= 0.0
    ensures IsAugmented(|matrix|, r.rows)
  {
    Reduce(|matrix|, Augment(matrix, vector), 0, tolerance)
  }

  /** When the elimination finishes, its last column is the one and only solution. */
  lemma SolutionExactAndUnique(matrix: Matrix, vector: Vector, tolerance: real, x: Vector)
    requires IsSquare(matrix) && |vector| == |matrix| && tolerance >= 0.0
    requires Elimination(matrix, vector, tolerance).Reduced?
    ensures Satisfies(matrix, vector, x) <==> x == LastColumn(|matrix|, Elimination(matrix, vector, tolerance).rows)
  {
    hide Times, Dot, Annihilates, Augment, Reduce, Residue;
    var n, rows := |matrix|, Elimination(matrix, vector, tolerance).rows;
    ReduceEquivalent(n, Augment(matrix, vector), 0, tolerance);
    if |x| == n {
      AugmentSystem(matrix, vector, x);
      assert Annihilates(n, rows, x, 1.0) <==> Annihilates(n, Augment(matrix, vector), x, 1.0);
      ReducedSolutions(n, rows, x, 1.0);
      forall i | 0 <= i < n ensures Times(1.0, rows[i][n]) == LastColumn(n, rows)[i] && At(x, i) == x[i] {
        TimesZero(rows[i][n]);
      }
    }
  }

  /** A matrix with a nontrivial kernel is never solved. */
  lemma KernelIsTrivial(matrix: Matrix, vector: Vector, tolerance: real, x: Vector)
    requires IsSquare(matrix) && |vector| == |matrix| && tolerance >= 0.0
    requires Elimination(matrix, vector, tolerance).Reduced? && InKernel(matrix, x)
    ensures IsZeroVector(x)
  {
    hide Times, Dot, Annihilates, Augment, Reduce, Residue;
    var n, rows := |matrix|, Elimination(matrix, vector, tolerance).rows;
    ReduceEquivalent(n, Augment(matrix, vector), 0, tolerance);
    AugmentSystem(matrix, vector, x);
    assert Annihilates(n, rows, x, 0.0) <==> Annihilates(n, Augment(matrix, vector), x, 0.0);
    ReducedSolutions(n, rows, x, 0.0);
    forall i | 0 <= i < n ensures x[i] == 0.0 {
      TimesZero(rows[i][n]);
      assert At(x, i) == Times(0.0, rows[i][n]);
    }
  }

  // ----- When the elimination is stuck.

  /** The vector that eliminates the treated columns against column c. */
  function Witness(n: nat, rows: Matrix, c: nat): (y: Vector)
    requires IsAugmented(n, rows) && c < n
    ensures |y| == n && y[c] == 1.0
  {
    seq(n, j requires 0 <= j < n => if j < c then -rows[j][c] else Kronecker(c, j))
  }

  lemma {:induction false} WitnessDot(n: nat, rows: Matrix, c: nat, i: nat, k: nat)
    requires IsAugmented(n, rows) && c < n && i < n && k <= n && UnitColumns(n, rows, c)
    ensures Dot(k, rows[i], Witness(n, rows, c))
         == (if i < c && i < k then -rows[i][c] else 0.0) + (if c < k then rows[i][c] else 0.0)
  {
    hide Times;
    if k > 0 {
      WitnessDot(n, rows, c, i, k - 1);
      TimesZero(rows[i][k - 1]);
      TimesZero(Witness(n, rows, c)[k - 1]);
      if k - 1 < c { assert At(rows[i], k - 1) == Kronecker(i, k - 1); }
    }
  }

  /** Stuck with tolerance zero means singular: the matrix has a nonzero kernel vector. */
  lemma StuckIsSingular(matrix: Matrix, vector: Vector) returns (y: Vector)
    requires IsSquare(matrix) && |vector| == |matrix|
    requires Elimination(matrix, vector, 0.0).Stuck?
    ensures InKernel(matrix, y) && !IsZeroVector(y)
  {
    hide Times, Dot, Annihilates, Augment, Reduce, Witness;
    var n, r := |matrix|, Elimination(matrix, vector, 0.0);
    StuckBound(matrix, vector, 0.0);
    ReduceEquivalent(n, Augment(matrix, vector), 0, 0.0);
    y := Witness(n, r.rows, r.column);
    StuckAnnihilates(n, r.rows, r.column);
    AugmentSystem(matrix, vector, y);
    assert Annihilates(n, r.rows, y, 0.0) <==> Annihilates(n, Augment(matrix, vector), y, 0.0);
  }

  lemma StuckBound(matrix: Matrix, vector: Vector, tolerance: real)
    requires IsSquare(matrix) && |vector| == |matrix| && tolerance >= 0.0
    requires Elimination(matrix, vector, tolerance).Stuck?
    ensures Elimination(matrix, vector, tolerance).column < |matrix|
  {
  }

  lemma StuckAnnihilates(n: nat, rows: Matrix, c: nat)
    requires IsAugmented(n, rows) && c < n && UnitColumns(n, rows, c)
    requires forall i :: c <= i < n ==> Abs(At(rows[i], c)) <= 0.0
    ensures Annihilates(n, rows, Witness(n, rows, c), 0.0)
  {
    hide Times, Dot, Witness;
    forall i | 0 <= i < n ensures Residue(n, rows[i], Witness(n, rows, c), 0.0) == 0.0 {
      WitnessDot(n, rows, c, i, n);
      TimesZero(At(rows[i], n));
      if c <= i { assert Abs(At(rows[i], c)) <= 0.0; }
    }
  }

  /** With tolerance zero the elimination finishes exactly on the matrices with trivial kernel. */
  lemma ExactToleranceDecidesSingularity(matrix: Matrix, vector: Vector)
    requires IsSquare(matrix) && |vector| == |matrix|
    ensures Elimination(matrix, vector, 0.0).Reduced? <==> forall x: Vector :: InKernel(matrix, x) ==> IsZeroVector(x)
  {
    hide Elimination, InKernel, IsZeroVector;
    if Elimination(matrix, vector, 0.0).Reduced? {
      forall x: Vector | InKernel(matrix, x) ensures IsZeroVector(x) {
        KernelIsTrivial(matrix, vector, 0.0, x);
      }
    } else {
      var y := StuckIsSingular(matrix, vector);
    }
  }

  /** The exact elimination has a pivot within the tolerance. */
  ghost predicate HasSmallPivot(r: Reduction, tolerance: real) {
    r.Reduced? && exists i :: 0 <= i < |r.pivots| && r.pivots[i] <= tolerance
  }

  /** A tolerance only adds refusals: elimination with it finishes exactly when the exact one does
      with all pivots above it, and then they are the same. */
  lemma {:induction false} ToleranceRefuses(n: nat, rows: Matrix, column: nat, tolerance: real)
    requires IsAugmented(n, rows) && column <= n && tolerance >= 0.0
    ensures var r, exact := Reduce(n, rows, column, tolerance), Reduce(n, rows, column, 0.0);
            && (r.Reduced? <==> exact.Reduced? && !HasSmallPivot(exact, tolerance))
            && (r.Reduced? ==> r == exact)
    decreases n - column
  {
    hide ClearColumn, Pivoted, PivotRow, At, Reduce;
    if column == n {
      ReduceDone(n, rows, tolerance);
      ReduceDone(n, rows, 0.0);
    } else {
      ReduceStep(n, rows, column, tolerance);
      ReduceStep(n, rows, column, 0.0);
      var k := PivotRow(n, rows, column, n);
      var pivot := Abs(At(rows[k], column));
      if pivot > 0.0 {
        var next := ClearColumn(n, Pivoted(n, rows, column, k), column);
        ToleranceRefuses(n, next, column + 1, tolerance);
        SmallPivotFirst(pivot, Reduce(n, next, column + 1, 0.0), tolerance);
      }
    }
  }

  lemma SmallPivotFirst(pivot: real, r: Reduction, tolerance: real)
    ensures HasSmallPivot(Prepend([pivot], r), tolerance) <==>
            r.Reduced? && (pivot <= tolerance || HasSmallPivot(r, tolerance))
  {
    if r.Reduced? {
      var all := [pivot] + r.pivots;
      assert all[0] == pivot;
      assert forall i :: 0 <= i < |r.pivots| ==> all[i + 1] == r.pivots[i];
    }
  }

  /** A matrix is refused exactly when it is singular or its exact elimination has a pivot within
      the tolerance; the report is false exactly in the second case. */
  lemma RefusedIff(matrix: Matrix, vector: Vector, tolerance: real)
    requires IsSquare(matrix) && |vector| == |matrix| && tolerance >= 0.0
    ensures var refused := Elimination(matrix, vector, tolerance).Stuck?;
            var regular := forall x: Vector :: InKernel(matrix, x) ==> IsZeroVector(x);
            var small := HasSmallPivot(Elimination(matrix, vector, 0.0), tolerance);
            && (refused <==> !regular || small)
            && (refused && regular <==> small)
  {
    hide Reduce, InKernel, IsZeroVector, HasSmallPivot;
    ToleranceRefuses(|matrix|, Augment(matrix, vector), 0, tolerance);
    ExactToleranceDecidesSingularity(matrix, vector);
    SmallPivotReduced(Elimination(matrix, vector, 0.0), tolerance);
  }

  lemma SmallPivotReduced(r: Reduction, tolerance: real)
    ensures HasSmallPivot(r, tolerance) ==> r.Reduced?
  {
  }

  /** With the worker's tolerance such a matrix exists: regular, and refused. */
  lemma RegularMatrixRefused()
    ensures var matrix: Matrix := [[0.000000000001]];
            && IsSquare(matrix)
            && Elimination(matrix, [1.0], PIVOT_TOLERANCE).Stuck?
            && forall x: Vector :: InKernel(matrix, x) ==> IsZeroVector(x)
  {
    var matrix: Matrix := [[PIVOT_TOLERANCE]];
    assert Augment(matrix, [1.0])[0] == [PIVOT_TOLERANCE, 1.0];
    assert PivotRow(1, Augment(matrix, [1.0]), 0, 1) == 0;
    forall x: Vector | InKernel(matrix, x) ensures IsZeroVector(x) {
      assert Dot(1, matrix[0], x) == Dot(0, matrix[0], x) + Times(PIVOT_TOLERANCE, x[0]);
      NoZeroDivisor(PIVOT_TOLERANCE, x[0]);
    }
  }

  // ----- Diagonally dominant matrices are never refused.

  /** The absolute entries of column j in rows lo to hi, but for row `skip`. */
  function ColumnSum(rows: Matrix, j: nat, skip: int, lo: nat, hi: nat): real
    requires hi <= |rows|
  {
    if hi <= lo then 0.0
    else ColumnSum(rows, j, skip, lo, hi - 1) + (if hi - 1 == skip then 0.0 else Abs(At(rows[hi - 1], j)))
  }

  /** From row `column` on, each diagonal entry exceeds the rest of its column by more than the margin. */
  ghost predicate Dominant(n: nat, rows: Matrix, column: nat, margin: real)
    requires n <= |rows|
  {
    forall j :: column <= j < n ==> Abs(At(rows[j], j)) > ColumnSum(rows, j, j, column, n) + margin
  }

  lemma {:induction false} EntryWithinSum(rows: Matrix, j: nat, skip: int, lo: nat, hi: nat, i: nat)
    requires hi <= |rows|
    ensures ColumnSum(rows, j, skip, lo, hi) >= 0.0
    ensures lo <= i < hi && i != skip ==> Abs(At(rows[i], j)) <= ColumnSum(rows, j, skip, lo, hi)
  {
    if hi > lo {
      EntryWithinSum(rows, j, skip, lo, hi - 1, i);
    }
  }

  /** Taking the first row out of a sum. */
  lemma {:induction false} FirstOfSum(rows: Matrix, j: nat, skip: int, lo: nat, hi: nat)
    requires lo < hi <= |rows|
    ensures ColumnSum(rows, j, skip, lo, hi)
         == (if lo == skip then 0.0 else Abs(At(rows[lo], j))) + ColumnSum(rows, j, skip, lo + 1, hi)
  {
    hide At;
    if hi > lo + 1 {
      FirstOfSum(rows, j, skip, lo, hi - 1);
    }
  }

  /** Adding a skipped row back. */
  lemma {:induction false} SkippedOfSum(rows: Matrix, j: nat, skip: nat, other: int, lo: nat, hi: nat)
    requires lo <= skip < hi <= |rows| && !(lo <= other < hi)
    ensures ColumnSum(rows, j, other, lo, hi) == ColumnSum(rows, j, skip, lo, hi) + Abs(At(rows[skip], j))
  {
    hide At;
    if hi - 1 == skip {
      SumWithout(rows, j, skip, other, lo, hi - 1);
    } else {
      SkippedOfSum(rows, j, skip, other, lo, hi - 1);
    }
  }

  lemma {:induction false} SumWithout(rows: Matrix, j: nat, a: int, b: int, lo: nat, hi: nat)
    requires hi <= |rows| && !(lo <= a < hi) && !(lo <= b < hi)
    ensures ColumnSum(rows, j, a, lo, hi) == ColumnSum(rows, j, b, lo, hi)
  {
    hide At;
    if hi > lo {
      SumWithout(rows, j, a, b, lo, hi - 1);
    }
  }

  lemma DominantPivot(n: nat, rows: Matrix, column: nat, margin: real)
    requires IsAugmented(n, rows) && column < n && margin >= 0.0 && Dominant(n, rows, column, margin)
    ensures PivotRow(n, rows, column, n) == column && Abs(At(rows[column], column)) > margin
  {
    hide ColumnSum, At;
    var k := PivotRow(n, rows, column, n);
    EntryWithinSum(rows, column, column, column, n, k);
  }

  lemma NextEntry(n: nat, rows: Matrix, column: nat, i: nat, j: nat)
    requires IsAugmented(n, rows) && column < i < n && j <= n && At(rows[column], column) != 0.0
    ensures var next := ClearColumn(n, Pivoted(n, rows, column, column), column);
            var factor := At(rows[column], j) / At(rows[column], column);
            At(next[i], j) == At(rows[i], j) - Times(At(rows[i], column), factor)
  {
  }

  lemma AbsTimes(a: real, b: real)
    ensures Abs(Times(a, b)) == Times(Abs(a), Abs(b))
  {
  }

  lemma AbsDifference(a: real, b: real)
    ensures Abs(a) - Abs(b) <= Abs(a - b) <= Abs(a) + Abs(b)
  {
  }

  lemma {:induction false} NextSum(n: nat, rows: Matrix, column: nat, j: nat, hi: nat)
    requires IsAugmented(n, rows) && column < j < n && hi <= n && At(rows[column], column) != 0.0
    ensures var next := ClearColumn(n, Pivoted(n, rows, column, column), column);
            var factor := Abs(At(rows[column], j) / At(rows[column], column));
            ColumnSum(next, j, j, column + 1, hi)
            <= ColumnSum(rows, j, j, column + 1, hi) + Times(ColumnSum(rows, column, j, column + 1, hi), factor)
  {
    hide Times, ClearColumn, Pivoted, At, Abs;
    var next := ClearColumn(n, Pivoted(n, rows, column, column), column);
    var quotient := At(rows[column], j) / At(rows[column], column);
    var factor := Abs(quotient);
    if hi <= column + 1 {
      TimesZero(factor);
    } else {
      NextSum(n, rows, column, j, hi - 1);
      var i := hi - 1;
      if i != j {
        NextEntry(n, rows, column, i, j);
        AbsDifference(At(rows[i], j), Times(At(rows[i], column), quotient));
        AbsTimes(At(rows[i], column), quotient);
        TimesAdd(factor, ColumnSum(rows, column, j, column + 1, i), Abs(At(rows[i], column)));
      }
    }
  }

  /** One step of the elimination keeps the margin. */
  lemma DominantNext(n: nat, rows: Matrix, column: nat, margin: real)
    requires IsAugmented(n, rows) && column < n && margin >= 0.0 && Dominant(n, rows, column, margin)
    requires At(rows[column], column) != 0.0
    ensures Dominant(n, ClearColumn(n, Pivoted(n, rows, column, column), column), column + 1, margin)
  {
    hide ClearColumn, Pivoted, ColumnSum, At;
    forall j | column < j < n
      ensures var next := ClearColumn(n, Pivoted(n, rows, column, column), column);
              Abs(At(next[j], j)) > ColumnSum(next, j, j, column + 1, n) + margin
    {
      DominantColumn(n, rows, column, j, margin);
    }
  }

  lemma DominantColumn(n: nat, rows: Matrix, column: nat, j: nat, margin: real)
    requires IsAugmented(n, rows) && column < j < n && margin >= 0.0 && At(rows[column], column) != 0.0
    requires Abs(At(rows[j], j)) > ColumnSum(rows, j, j, column, n) + margin
    requires Abs(At(rows[column], column)) > ColumnSum(rows, column, column, column, n)
    ensures var next := ClearColumn(n, Pivoted(n, rows, column, column), column);
            Abs(At(next[j], j)) > ColumnSum(next, j, j, column + 1, n) + margin
  {
    hide Times, ClearColumn, Pivoted, ColumnSum, At, Abs;
    var pivot, entry := At(rows[column], column), At(rows[column], j);
    var quotient := entry / pivot;
    var factor := Abs(quotient);
    NextSum(n, rows, column, j, n);
    NextEntry(n, rows, column, j, j);
    AbsDifference(At(rows[j], j), Times(At(rows[j], column), quotient));
    AbsTimes(At(rows[j], column), quotient);
    var below := ColumnSum(rows, column, j, column + 1, n);
    TimesAdd(factor, below, Abs(At(rows[j], column)));
    SkippedOfSum(rows, column, j, column, column + 1, n);
    FirstOfSum(rows, column, column, column, n);
    FirstOfSum(rows, j, j, column, n);
    WithinPivot(below + Abs(At(rows[j], column)), pivot, entry);
  }

  lemma WithinPivot(sum: real, pivot: real, entry: real)
    requires pivot != 0.0 && sum <= Abs(pivot)
    ensures Times(sum, Abs(entry / pivot)) <= Abs(entry)
  {
    var q := entry / pivot;
    assert Times(q, pivot) == entry;
    AbsTimes(q, pivot);
    assert (Abs(pivot) - sum) * Abs(q) >= 0.0;
  }

  /** A dominant matrix is reduced, without a single exchange of rows. */
  lemma {:induction false} DominantReduces(n: nat, rows: Matrix, column: nat, tolerance: real)
    requires IsAugmented(n, rows) && column <= n && tolerance >= 0.0 && Dominant(n, rows, column, tolerance)
    ensures Reduce(n, rows, column, tolerance).Reduced?
    decreases n - column
  {
    hide ClearColumn, Pivoted, ColumnSum, At, Dominant, PivotRow;
    if column < n {
      DominantPivot(n, rows, column, tolerance);
      DominantNext(n, rows, column, tolerance);
      DominantReduces(n, ClearColumn(n, Pivoted(n, rows, column, column), column), column + 1, tolerance);
    }
  }

  lemma {:induction false} AugmentedSum(matrix: Matrix, vector: Vector, j: nat, hi: nat)
    requires IsSquare(matrix) && |vector| == |matrix| && j < |matrix| && hi <= |matrix|
    ensures ColumnSum(Augment(matrix, vector), j, j, 0, hi) == ColumnSum(matrix, j, j, 0, hi)
  {
    if hi > 0 {
      AugmentedSum(matrix, vector, j, hi - 1);
    }
  }

  /** So the worker's test refuses no matrix whose columns are dominated by their diagonal. */
  lemma DominantIsSolved(matrix: Matrix, vector: Vector, tolerance: real)
    requires IsSquare(matrix) && |vector| == |matrix| && tolerance >= 0.0
    requires Dominant(|matrix|, matrix, 0, tolerance)
    ensures Elimination(matrix, vector, tolerance).Reduced?
  {
    hide ColumnSum, Reduce;
    var rows := Augment(matrix, vector);
    forall j | 0 <= j < |matrix|
      ensures Abs(At(rows[j], j)) > ColumnSum(rows, j, j, 0, |matrix|) + tolerance
    {
      AugmentedSum(matrix, vector, j, |matrix|);
    }
    DominantReduces(|matrix|, rows, 0, tolerance);
  }

  // ----- The worker's code, rewriting rows in place.

  datatype Failure = MatrixInvalid | MatrixNotSquare | VectorInvalid | DimensionMismatch | Singular

  datatype Outcome =
    | Solved(solution: Vector, residualInfinityNorm: real, pivotRatio: real, accepted: bool)
    | Failed(failure: Failure)

  method FindPivot(augmented: array<Vector>, n: nat, column: nat) returns (k: nat)
    requires IsAugmented(n, augmented[..]) && column < n
    ensures column <= k < n
    ensures k == PivotRow(n, augmented[..], column, n)
  {
    k := column;
    var row := column + 1;
    while row < n
      invariant column < row <= n
      invariant column <= k < row
      invariant k == PivotRow(n, augmented[..], column, row)
    {
      if Abs(At(augmented[row], column)) > Abs(At(augmented[k], column)) {
        k := row;
      }
      row := row + 1;
    }
  }

  method ClearRows(augmented: array<Vector>, n: nat, column: nat)
    requires IsAugmented(n, augmented[..]) && column < n
    modifies augmented
    ensures augmented[..] == ClearColumn(n, old(augmented[..]), column)
  {
    hide Axpy;
    ghost var before := augmented[..];
    var row := 0;
    while row < n
      invariant 0 <= row <= n
      invariant augmented[column] == before[column]
      invariant forall i :: 0 <= i < row ==> augmented[i] == Cleared(before, column, i)
      invariant forall i :: row <= i < n ==> augmented[i] == before[i]
    {
      if row != column {
        var factor := At(augmented[row], column);
        augmented[row] := Axpy(augmented[row], -factor, augmented[column]);
      }
      row := row + 1;
    }
    assert augmented[..] == ClearColumn(n, before, column);
  }

  /** The swap and the division of the pivot row. */
  method MovePivot(augmented: array<Vector>, n: nat, column: nat, k: nat)
    requires IsAugmented(n, augmented[..]) && column <= k < n && At(augmented[k], column) != 0.0
    modifies augmented
    ensures augmented[..] == Pivoted(n, old(augmented[..]), column, k)
  {
    hide Divide;
    augmented[column], augmented[k] := augmented[k], augmented[column];
    var scale := At(augmented[column], column);
    augmented[column] := Divide(augmented[column], scale);
  }

  /** In-place elimination computes `Elimination`. */
  method Eliminate(augmented: array<Vector>, n: nat) returns (finished: bool, pivots: seq<real>)
    requires IsAugmented(n, augmented[..])
    modifies augmented
    ensures finished == Reduce(n, old(augmented[..]), 0, PIVOT_TOLERANCE).Reduced?
    ensures finished ==> Reduced(augmented[..], pivots) == Reduce(n, old(augmented[..]), 0, PIVOT_TOLERANCE)
  {
    hide ClearColumn, Pivoted, PivotRow, Reduce, At;
    ghost var goal := Reduce(n, augmented[..], 0, PIVOT_TOLERANCE);
    pivots := [];
    var column := 0;
    while column < n
      invariant 0 <= column <= n
      invariant IsAugmented(n, augmented[..])
      invariant goal == Prepend(pivots, Reduce(n, augmented[..], column, PIVOT_TOLERANCE))
    {
      var pivotRow := FindPivot(augmented, n, column);
      var pivot := At(augmented[pivotRow], column);
      ReduceStep(n, augmented[..], column, PIVOT_TOLERANCE);
      if Abs(pivot) <= PIVOT_TOLERANCE {
        return false, pivots;
      }
      MovePivot(augmented, n, column, pivotRow);
      ClearRows(augmented, n, column);
      PrependTwice(pivots, [Abs(pivot)], Reduce(n, augmented[..], column + 1, PIVOT_TOLERANCE));
      pivots := pivots + [Abs(pivot)];
      column := column + 1;
    }
    ReduceDone(n, augmented[..], PIVOT_TOLERANCE);
    assert pivots + [] == pivots;
    finished := true;
  }

  lemma ReduceStep(n: nat, rows: Matrix, column: nat, tolerance: real)
    requires IsAugmented(n, rows) && column < n && tolerance >= 0.0
    ensures var k := PivotRow(n, rows, column, n);
            var pivot := At(rows[k], column);
            Reduce(n, rows, column, tolerance) ==
              if Abs(pivot) <= tolerance then Stuck(rows, column)
              else Prepend([Abs(pivot)],
                           Reduce(n, ClearColumn(n, Pivoted(n, rows, column, k), column), column + 1, tolerance))
  {
    hide ClearColumn, Pivoted, PivotRow, At;
  }

  lemma ReduceDone(n: nat, rows: Matrix, tolerance: real)
    requires IsAugmented(n, rows) && tolerance >= 0.0
    ensures Reduce(n, rows, n, tolerance) == Reduced(rows, [])
  {
  }

  ghost function Prepend(pivots: seq<real>, r: Reduction): Reduction {
    match r
    case Reduced(rows, rest) => Reduced(rows, pivots + rest)
    case Stuck(_, _) => r
  }

  lemma PrependTwice(a: seq<real>, b: seq<real>, r: Reduction)
    ensures Prepend(a, Prepend(b, r)) == Prepend(a + b, r)
  {
    if r.Reduced? {
      assert a + (b + r.pivots) == a + b + r.pivots;
    }
  }

  /** The largest absolute residual of x. */
  method ResidualNorm(matrix: Matrix, vector: Vector, x: Vector) returns (norm: real)
    requires |vector| == |matrix| && |matrix| > 0
    ensures forall i :: 0 <= i < |matrix| ==> Abs(Dot(|matrix|, matrix[i], x) - vector[i]) <= norm
    ensures exists i :: 0 <= i < |matrix| && Abs(Dot(|matrix|, matrix[i], x) - vector[i]) == norm
  {
    hide Dot;
    norm := Abs(Dot(|matrix|, matrix[0], x) - vector[0]);
    var row := 1;
    while row < |matrix|
      invariant 1 <= row <= |matrix|
      invariant forall i :: 0 <= i < row ==> Abs(Dot(|matrix|, matrix[i], x) - vector[i]) <= norm
      invariant exists i :: 0 <= i < row && Abs(Dot(|matrix|, matrix[i], x) - vector[i]) == norm
    {
      var value := Abs(Dot(|matrix|, matrix[row], x) - vector[row]);
      if value > norm {
        norm := value;
      }
      row := row + 1;
    }
  }

  /** The ratio is the largest of any two pivots. */
  ghost predicate IsSpread(pivots: seq<real>, ratio: real)
    requires forall i :: 0 <= i < |pivots| ==> pivots[i] > 0.0
  {
    && (forall i, j :: 0 <= i < |pivots| && 0 <= j < |pivots| ==> pivots[i] / pivots[j] <= ratio)
    && exists i, j :: 0 <= i < |pivots| && 0 <= j < |pivots| && pivots[i] / pivots[j] == ratio
  }

  /** max / min of a nonempty list of positive numbers. */
  method PivotSpread(pivots: seq<real>) returns (ratio: real)
    requires |pivots| > 0 && forall i :: 0 <= i < |pivots| ==> pivots[i] > 0.0
    ensures ratio >= 1.0 && IsSpread(pivots, ratio)
  {
    var largest, smallest := pivots[0], pivots[0];
    ghost var iMax, iMin := 0, 0;
    for k := 1 to |pivots|
      invariant 0 <= iMax < |pivots| && pivots[iMax] == largest
      invariant 0 <= iMin < |pivots| && pivots[iMin] == smallest
      invariant forall i :: 0 <= i < k ==> smallest <= pivots[i] <= largest
    {
      if pivots[k] > largest {
        largest, iMax := pivots[k], k;
      }
      if pivots[k] < smallest {
        smallest, iMin := pivots[k], k;
      }
    }
    ratio := largest / smallest;
    AtLeastOne(largest, smallest);
    forall i, j | 0 <= i < |pivots| && 0 <= j < |pivots| ensures pivots[i] / pivots[j] <= ratio {
      RatioBound(pivots[i], pivots[j], largest, smallest);
    }
    assert pivots[iMax] / pivots[iMin] == ratio;
  }

  lemma AtLeastOne(largest: real, smallest: real)
    requires 0.0 < smallest <= largest
    ensures largest / smallest >= 1.0
  {
  }

  /** The reported ratio is that of the pivots of the elimination. */
  ghost predicate PivotsSpread(matrix: Matrix, vector: Vector, ratio: real)
    requires IsSquare(matrix) && |vector| == |matrix|
  {
    var r := Elimination(matrix, vector, PIVOT_TOLERANCE);
    r.Reduced? && (forall i :: 0 <= i < |r.pivots| ==> r.pivots[i] > 0.0) && IsSpread(r.pivots, ratio)
  }

  lemma RatioBound(a: real, b: real, largest: real, smallest: real)
    requires 0.0 < smallest <= b && 0.0 < a <= largest
    ensures a / b <= largest / smallest
  {
    assert a / b <= largest / b;
    assert largest / b <= largest / smallest by {
      var q := largest / b;
      assert q * smallest <= q * b == largest;
    }
  }

  /** The checks of the request and the solver behind them.  A returned vector is the only
      solution, its residual is zero, and it is accepted for every nonnegative tolerance. */
  method LinearAlgebra(matrix: Matrix, vector: Vector, residualTolerance: real) returns (r: Outcome)
    ensures r == Failed(MatrixInvalid) <==> matrix == [] || [] in matrix
    ensures r == Failed(MatrixNotSquare) <==> matrix != [] && [] !in matrix && !IsSquare(matrix)
    ensures r == Failed(VectorInvalid) <==> matrix != [] && [] !in matrix && IsSquare(matrix) && vector == []
    ensures r == Failed(DimensionMismatch) <==>
      matrix != [] && [] !in matrix && IsSquare(matrix) && vector != [] && |vector| != |matrix|
    ensures r.Solved? ==>
      && IsSquare(matrix) && |vector| == |matrix|
      && (forall x: Vector :: Satisfies(matrix, vector, x) <==> x == r.solution)
      && (forall x: Vector :: InKernel(matrix, x) ==> IsZeroVector(x))
      && r.residualInfinityNorm == 0.0
      && r.pivotRatio >= 1.0 && PivotsSpread(matrix, vector, r.pivotRatio)
      && (r.accepted <==> residualTolerance >= 0.0)
    ensures matrix != [] && IsSquare(matrix) && |vector| == |matrix| ==>
      (Dominant(|matrix|, matrix, 0, 0.000000000001) ==> r.Solved?)
    ensures r == Failed(Singular) ==>
      && IsSquare(matrix) && |vector| == |matrix|
      && ((exists x: Vector :: InKernel(matrix, x) && !IsZeroVector(x))
          || HasSmallPivot(Elimination(matrix, vector, 0.0), 0.000000000001))
  {
    if matrix == [] || [] in matrix {
      return Failed(MatrixInvalid);
    }
    if !IsSquare(matrix) {
      return Failed(MatrixNotSquare);
    }
    if vector == [] {
      return Failed(VectorInvalid);
    }
    r := SolveLinearSystem(matrix, vector, residualTolerance);
  }

  method SolveLinearSystem(matrix: Matrix, vector: Vector, residualTolerance: real) returns (r: Outcome)
    requires IsSquare(matrix) && |matrix| > 0
    ensures r == Failed(DimensionMismatch) <==> |vector| != |matrix|
    ensures r.Failed? ==> r.failure == DimensionMismatch || r.failure == Singular
    ensures |vector| == |matrix| ==> (r == Failed(Singular) <==> Elimination(matrix, vector, 0.000000000001).Stuck?)
    ensures |vector| == |matrix| ==> (r == Failed(Singular) <==>
      (exists x: Vector :: InKernel(matrix, x) && !IsZeroVector(x))
      || HasSmallPivot(Elimination(matrix, vector, 0.0), 0.000000000001))
    ensures |vector| == |matrix| && Dominant(|matrix|, matrix, 0, 0.000000000001) ==> r.Solved?
    ensures r.Solved? ==>
      && (forall x: Vector :: Satisfies(matrix, vector, x) <==> x == r.solution)
      && (forall x: Vector :: InKernel(matrix, x) ==> IsZeroVector(x))
      && r.residualInfinityNorm == 0.0
      && r.pivotRatio >= 1.0 && PivotsSpread(matrix, vector, r.pivotRatio)
      && (r.accepted <==> residualTolerance >= 0.0)
  {
    hide Dot, Reduce, IsZeroVector, InKernel, IsSpread, HasSmallPivot, Dominant;
    var n := |matrix|;
    if |vector| != n {
      return Failed(DimensionMismatch);
    }
    RefusedIff(matrix, vector, PIVOT_TOLERANCE);
    if Dominant(n, matrix, 0, PIVOT_TOLERANCE) {
      DominantIsSolved(matrix, vector, PIVOT_TOLERANCE);
    }
    var augmented := new Vector[n](i requires 0 <= i < n => matrix[i] + [vector[i]]);
    assert augmented[..] == Augment(matrix, vector);
    var finished, pivots := Eliminate(augmented, n);
    if !finished {
      return Failed(Singular);
    }
    var solution := LastColumn(n, augmented[..]);
    forall x: Vector ensures Satisfies(matrix, vector, x) <==> x == solution {
      SolutionExactAndUnique(matrix, vector, PIVOT_TOLERANCE, x);
    }
    forall x: Vector | InKernel(matrix, x) ensures IsZeroVector(x) {
      KernelIsTrivial(matrix, vector, PIVOT_TOLERANCE, x);
    }
    assert Satisfies(matrix, vector, solution);
    var norm := ResidualNorm(matrix, vector, solution);
    var ratio := PivotSpread(pivots);
    r := Solved(solution, norm, ratio, norm <= residualTolerance);
  }
}
