/**
  The zero-padded five-point operator of the Poisson solver on an n x n grid: it is
  linear, symmetric and strictly positive for every n.
 */
module PoissonOperator {
  import opened Vectors

  type Field = seq<Vector>

  predicate IsField(n: nat, f: Field) {
    |f| == n && forall i :: 0 <= i < n ==> |f[i]| == n
  }

  function Row(f: Field, i: int): Vector {
    if 0 <= i < |f| then f[i] else []
  }

  /** The array with one ring of zeros around it, indexed from 0 to n + 1. */
  function Padded(f: Field, i: int, j: int): real {
    At(Row(f, i - 1), j - 1)
  }

  /** f + c * g */
  function FieldAxpy(n: nat, f: Field, c: real, g: Field): (s: Field)
    requires IsField(n, f) && IsField(n, g)
    ensures IsField(n, s)
    ensures forall i :: 0 <= i < n ==> Row(s, i) == Axpy(Row(f, i), c, Row(g, i))
  {
    seq(n, i requires 0 <= i < n => Axpy(f[i], c, g[i]))
  }

  function ZeroField(n: nat): (z: Field)
    ensures IsField(n, z)
    ensures forall i, j :: At(Row(z, i), j) == 0.0
  {
    seq(n, i => seq(n, j => 0.0))
  }

  function Stencil(f: Field, i: int, j: int): real {
    4.0 * At(Row(f, i), j)
    - Padded(f, i, j + 1) - Padded(f, i + 2, j + 1)
    - Padded(f, i + 1, j) - Padded(f, i + 1, j + 2)
  }

  /** The five-point stencil before the division by the squared spacing. */
  function StencilField(n: nat, f: Field): (g: Field)
    requires IsField(n, f)
    ensures IsField(n, g)
    ensures forall i, j :: 0 <= i < n && 0 <= j < n ==> At(Row(g, i), j) == Stencil(f, i, j)
  {
    seq(n, i requires 0 <= i < n => seq(n, j requires 0 <= j < n => Stencil(f, i, j)))
  }

  function NegativeLaplacian(n: nat, f: Field, spacing: real): (g: Field)
    requires IsField(n, f) && spacing > 0.0
    ensures IsField(n, g)
  {
    var stencil := StencilField(n, f);
    seq(n, i requires 0 <= i < n => seq(n, j requires 0 <= j < n => stencil[i][j] / (spacing * spacing)))
  }

  /** The inner product of the first `k` rows, each of `n` entries. */
  function InnerRows(n: nat, k: nat, f: Field, g: Field): real {
    if k == 0 then 0.0 else InnerRows(n, k - 1, f, g) + Dot(n, Row(f, k - 1), Row(g, k - 1))
  }

  function Inner(n: nat, f: Field, g: Field): real {
    InnerRows(n, n, f, g)
  }

  // ----- The inner product is bilinear, symmetric and definite.

  lemma {:induction false} InnerRowsSymmetric(n: nat, k: nat, f: Field, g: Field)
    ensures InnerRows(n, k, f, g) == InnerRows(n, k, g, f)
  {
    hide Dot;
    if k > 0 {
      InnerRowsSymmetric(n, k - 1, f, g);
      DotSymmetric(n, Row(f, k - 1), Row(g, k - 1));
    }
  }

  lemma InnerSymmetric(n: nat, f: Field, g: Field)
    ensures Inner(n, f, g) == Inner(n, g, f)
  {
    InnerRowsSymmetric(n, n, f, g);
  }

  lemma {:induction false} InnerRowsAxpy(n: nat, k: nat, f: Field, c: real, g: Field, w: Field)
    requires IsField(n, f) && IsField(n, g) && k <= n
    ensures InnerRows(n, k, FieldAxpy(n, f, c, g), w) == InnerRows(n, k, f, w) + Times(c, InnerRows(n, k, g, w))
  {
    hide Times, Dot, Axpy, FieldAxpy;
    if k == 0 {
      TimesZero(c);
    } else {
      InnerRowsAxpy(n, k - 1, f, c, g, w);
      DotAxpy(n, Row(f, k - 1), c, Row(g, k - 1), Row(w, k - 1));
      TimesAdd(c, InnerRows(n, k - 1, g, w), Dot(n, Row(g, k - 1), Row(w, k - 1)));
    }
  }

  lemma InnerAxpy(n: nat, f: Field, c: real, g: Field, w: Field)
    requires IsField(n, f) && IsField(n, g)
    ensures Inner(n, FieldAxpy(n, f, c, g), w) == Inner(n, f, w) + Times(c, Inner(n, g, w))
    ensures Inner(n, w, FieldAxpy(n, f, c, g)) == Inner(n, w, f) + Times(c, Inner(n, w, g))
  {
    hide Times, InnerRows, FieldAxpy;
    InnerRowsAxpy(n, n, f, c, g, w);
    InnerSymmetric(n, FieldAxpy(n, f, c, g), w);
    InnerSymmetric(n, f, w);
    InnerSymmetric(n, g, w);
  }

  ghost predicate IsZero(n: nat, k: nat, f: Field) {
    forall i, j :: 0 <= i < k && 0 <= j < n ==> At(Row(f, i), j) == 0.0
  }

  lemma {:induction false} InnerRowsDefinite(n: nat, k: nat, f: Field)
    ensures InnerRows(n, k, f, f) >= 0.0
    ensures InnerRows(n, k, f, f) == 0.0 <==> IsZero(n, k, f)
  {
    hide Dot;
    if k > 0 {
      InnerRowsDefinite(n, k - 1, f);
      DotNonnegative(n, Row(f, k - 1));
      if IsZero(n, k, f) {
        assert IsZero(n, k - 1, f);
      }
      if InnerRows(n, k, f, f) == 0.0 {
        forall i, j | 0 <= i < k && 0 <= j < n
          ensures At(Row(f, i), j) == 0.0
        {
          if i < k - 1 { assert IsZero(n, k - 1, f); }
        }
      }
    }
  }

  lemma InnerDefinite(n: nat, f: Field)
    ensures Inner(n, f, f) >= 0.0
    ensures Inner(n, f, f) == 0.0 <==> IsZero(n, n, f)
  {
    InnerRowsDefinite(n, n, f);
  }

  lemma {:induction false} InnerRowsZero(n: nat, k: nat, g: Field)
    ensures InnerRows(n, k, ZeroField(n), g) == 0.0
  {
    hide Dot;
    if k > 0 {
      InnerRowsZero(n, k - 1, g);
      DotZero(n, Row(ZeroField(n), k - 1), Row(g, k - 1));
    }
  }

  // ----- The operator as a bilinear form over neighbouring entries.

  /** Sum of u[j-1] * v[j] over the first k entries. */
  function ShiftDot(k: nat, u: Vector, v: Vector): real {
    if k == 0 then 0.0 else ShiftDot(k - 1, u, v) + Times(At(u, k - 2), At(v, k - 1))
  }

  /** Sum of u[j+1] * v[j] over the first k entries. */
  function UnshiftDot(k: nat, u: Vector, v: Vector): real {
    if k == 0 then 0.0 else UnshiftDot(k - 1, u, v) + Times(At(u, k), At(v, k - 1))
  }

  lemma {:induction false} UnshiftIsShift(k: nat, u: Vector, v: Vector)
    ensures UnshiftDot(k, u, v) == ShiftDot(k, v, u) + Times(At(u, k), At(v, k - 1))
  {
    hide Times;
    if k > 0 {
      UnshiftIsShift(k - 1, u, v);
      TimesSymmetric(At(u, k - 1), At(v, k - 2));
    } else {
      TimesZero(At(u, k));
    }
  }

  /** Row i - 1 of f against row i of g. */
  function ShiftInner(n: nat, k: nat, f: Field, g: Field): real {
    if k == 0 then 0.0 else ShiftInner(n, k - 1, f, g) + Dot(n, Row(f, k - 2), Row(g, k - 1))
  }

  /** Row i + 1 of f against row i of g. */
  function UnshiftInner(n: nat, k: nat, f: Field, g: Field): real {
    if k == 0 then 0.0 else UnshiftInner(n, k - 1, f, g) + Dot(n, Row(f, k), Row(g, k - 1))
  }

  lemma {:induction false} UnshiftInnerIsShift(n: nat, k: nat, f: Field, g: Field)
    ensures UnshiftInner(n, k, f, g) == ShiftInner(n, k, g, f) + Dot(n, Row(f, k), Row(g, k - 1))
  {
    hide Dot;
    if k > 0 {
      UnshiftInnerIsShift(n, k - 1, f, g);
      DotSymmetric(n, Row(f, k - 1), Row(g, k - 2));
    } else {
      DotZero(n, Row(g, k - 1), Row(f, k));
    }
  }

  /** Neighbours inside a row, summed over the first k rows. */
  function ShiftRows(n: nat, k: nat, f: Field, g: Field): real {
    if k == 0 then 0.0 else ShiftRows(n, k - 1, f, g) + ShiftDot(n, Row(f, k - 1), Row(g, k - 1))
  }

  lemma StencilProduct(a: real, b: real, c: real, d: real, e: real, w: real)
    ensures Times(4.0 * a - b - c - d - e, w)
         == 4.0 * Times(a, w) - Times(b, w) - Times(c, w) - Times(d, w) - Times(e, w)
    ensures Times(w, 4.0 * a - b - c - d - e)
         == 4.0 * Times(w, a) - Times(w, b) - Times(w, c) - Times(w, d) - Times(w, e)
  {
  }

  lemma {:induction false} RowForm(n: nat, k: nat, f: Field, i: nat, w: Vector)
    requires IsField(n, f) && i < n && k <= n
    ensures Dot(k, Row(StencilField(n, f), i), w)
         == 4.0 * Dot(k, Row(f, i), w) - Dot(k, Row(f, i - 1), w) - Dot(k, Row(f, i + 1), w)
            - ShiftDot(k, Row(f, i), w) - UnshiftDot(k, Row(f, i), w)
  {
    hide Times, StencilField;
    if k > 0 {
      RowForm(n, k - 1, f, i, w);
      StencilProduct(At(Row(f, i), k - 1), At(Row(f, i - 1), k - 1), At(Row(f, i + 1), k - 1),
                     At(Row(f, i), k - 2), At(Row(f, i), k), At(w, k - 1));
    }
  }

  lemma {:induction false} FormRows(n: nat, k: nat, f: Field, g: Field)
    requires IsField(n, f) && IsField(n, g) && k <= n
    ensures InnerRows(n, k, StencilField(n, f), g)
         == 4.0 * InnerRows(n, k, f, g) - ShiftInner(n, k, f, g) - UnshiftInner(n, k, f, g)
            - ShiftRows(n, k, f, g) - ShiftRows(n, k, g, f)
  {
    hide Times, Dot, ShiftDot, UnshiftDot, StencilField;
    if k > 0 {
      FormRows(n, k - 1, f, g);
      RowForm(n, n, f, k - 1, Row(g, k - 1));
      UnshiftIsShift(n, Row(f, k - 1), Row(g, k - 1));
      TimesZero(At(Row(g, k - 1), n - 1));
    }
  }

  /** Four times the inner product less the products of neighbouring entries. */
  function Form(n: nat, f: Field, g: Field): real {
    4.0 * Inner(n, f, g) - ShiftInner(n, n, f, g) - ShiftInner(n, n, g, f)
    - ShiftRows(n, n, f, g) - ShiftRows(n, n, g, f)
  }

  lemma StencilForm(n: nat, f: Field, g: Field)
    requires IsField(n, f) && IsField(n, g)
    ensures Inner(n, StencilField(n, f), g) == Form(n, f, g)
  {
    hide Dot, ShiftDot, StencilField;
    FormRows(n, n, f, g);
    UnshiftInnerIsShift(n, n, f, g);
    DotZero(n, Row(f, n), Row(g, n - 1));
  }

  function InverseSquare(h: real): (c: real)
    requires h > 0.0
    ensures c > 0.0
  {
    TimesPositive(h, h);
    1.0 / (h * h)
  }

  /** The operator is the stencil scaled by 1/h^2. */
  lemma OperatorIsScaledStencil(n: nat, f: Field, h: real)
    requires IsField(n, f) && h > 0.0
    ensures NegativeLaplacian(n, f, h) == FieldAxpy(n, ZeroField(n), InverseSquare(h), StencilField(n, f))
  {
    hide Stencil, StencilField;
    var stencil, c := StencilField(n, f), InverseSquare(h);
    var left, right := NegativeLaplacian(n, f, h), FieldAxpy(n, ZeroField(n), c, stencil);
    forall i | 0 <= i < n ensures left[i] == right[i] {
      assert Row(right, i) == Axpy(Row(ZeroField(n), i), c, Row(stencil, i));
      forall j | 0 <= j < n ensures left[i][j] == right[i][j] {
        AxpyAt(Row(ZeroField(n), i), c, Row(stencil, i), j);
        DivideIsTimes(stencil[i][j], h);
      }
    }
  }

  lemma DivideIsTimes(a: real, h: real)
    requires h > 0.0
    ensures h * h != 0.0
    ensures a / (h * h) == Times(InverseSquare(h), a)
  {
    TimesPositive(h, h);
  }

  /** Summation by parts: pairing with the operator is the scaled neighbour form. */
  lemma OperatorForm(n: nat, f: Field, h: real, g: Field)
    requires IsField(n, f) && IsField(n, g) && h > 0.0
    ensures Inner(n, NegativeLaplacian(n, f, h), g) == Times(InverseSquare(h), Form(n, f, g))
  {
    hide Times, FieldAxpy, StencilField, ZeroField, Form, InnerRows, NegativeLaplacian, InverseSquare;
    OperatorIsScaledStencil(n, f, h);
    InnerAxpy(n, ZeroField(n), InverseSquare(h), StencilField(n, f), g);
    InnerRowsZero(n, n, g);
    StencilForm(n, f, g);
  }

  /** <Lf, g> == <f, Lg> on every grid size. */
  lemma OperatorSymmetric(n: nat, f: Field, h: real, g: Field)
    requires IsField(n, f) && IsField(n, g) && h > 0.0
    ensures Inner(n, NegativeLaplacian(n, f, h), g) == Inner(n, f, NegativeLaplacian(n, g, h))
  {
    hide Times, InnerRows, NegativeLaplacian, ShiftInner, ShiftRows, InverseSquare;
    OperatorForm(n, f, h, g);
    OperatorForm(n, g, h, f);
    InnerSymmetric(n, f, g);
    InnerSymmetric(n, f, NegativeLaplacian(n, g, h));
  }

  // ----- Positivity.

  /** The sum of squared neighbour differences of the first k entries, in expanded form. */
  function Variation(k: nat, u: Vector): real {
    2.0 * Dot(k, u, u) - 2.0 * ShiftDot(k, u, u) - Times(At(u, k - 1), At(u, k - 1))
  }

  lemma {:induction false} VariationDefinite(k: nat, u: Vector)
    ensures Variation(k, u) >= 0.0
    ensures Variation(k, u) == 0.0 ==> forall i :: 0 <= i < k ==> At(u, i) == 0.0
  {
    hide Times;
    if k > 0 {
      VariationDefinite(k - 1, u);
      var a, b := At(u, k - 1), At(u, k - 2);
      SquareOfDifference(b, a);
      SquareDefinite(b - a);
      assert Variation(k, u) == Variation(k - 1, u) + Times(b - a, b - a);
    } else {
      TimesZero(0.0);
    }
  }

  lemma RowPositive(n: nat, u: Vector)
    ensures Dot(n, u, u) - ShiftDot(n, u, u) >= 0.0
    ensures Dot(n, u, u) - ShiftDot(n, u, u) == 0.0 ==> Dot(n, u, u) == 0.0
  {
    hide Times, Dot, ShiftDot;
    VariationDefinite(n, u);
    DotNonnegative(n, u);
    SquareDefinite(At(u, n - 1));
  }

  lemma {:induction false} RowsPositive(n: nat, k: nat, f: Field)
    ensures InnerRows(n, k, f, f) - ShiftRows(n, k, f, f) >= 0.0
    ensures InnerRows(n, k, f, f) - ShiftRows(n, k, f, f) == 0.0 ==> InnerRows(n, k, f, f) == 0.0
  {
    hide Dot, ShiftDot;
    if k > 0 {
      RowsPositive(n, k - 1, f);
      RowPositive(n, Row(f, k - 1));
    }
  }

  lemma {:induction false} ColumnsNonnegative(n: nat, k: nat, f: Field)
    ensures 2.0 * ShiftInner(n, k, f, f) <= 2.0 * InnerRows(n, k, f, f) - Dot(n, Row(f, k - 1), Row(f, k - 1))
  {
    hide Dot;
    if k > 0 {
      ColumnsNonnegative(n, k - 1, f);
      DotArithmeticGeometric(n, Row(f, k - 2), Row(f, k - 1));
    } else {
      DotZero(n, Row(f, k - 1), []);
    }
  }

  /** <Lf, f> > 0 for every nonzero field of every size. */
  lemma OperatorPositive(n: nat, f: Field, h: real)
    requires IsField(n, f) && h > 0.0
    ensures Inner(n, NegativeLaplacian(n, f, h), f) >= 0.0
    ensures !IsZero(n, n, f) ==> Inner(n, NegativeLaplacian(n, f, h), f) > 0.0
  {
    hide Times, Dot, InnerRows, ShiftInner, ShiftRows, NegativeLaplacian, InverseSquare;
    OperatorForm(n, f, h, f);
    RowsPositive(n, n, f);
    ColumnsNonnegative(n, n, f);
    DotNonnegative(n, Row(f, n - 1));
    InnerRowsDefinite(n, n, f);
    if Form(n, f, f) > 0.0 {
      TimesPositive(InverseSquare(h), Form(n, f, f));
    } else {
      TimesZero(InverseSquare(h));
    }
  }

  // ----- Linearity.

  lemma FieldAxpyAt(n: nat, f: Field, c: real, g: Field, i: int, j: int)
    requires IsField(n, f) && IsField(n, g)
    ensures At(Row(FieldAxpy(n, f, c, g), i), j) == At(Row(f, i), j) + Times(c, At(Row(g, i), j))
  {
    hide Times, Axpy;
    if 0 <= i < n {
      AxpyAt(Row(f, i), c, Row(g, i), j);
    } else {
      TimesZero(c);
    }
  }

  lemma StencilLinear(n: nat, f: Field, c: real, g: Field, i: int, j: int)
    requires IsField(n, f) && IsField(n, g)
    ensures Stencil(FieldAxpy(n, f, c, g), i, j) == Stencil(f, i, j) + Times(c, Stencil(g, i, j))
  {
    hide Times, FieldAxpy, Row, At;
    FieldAxpyAt(n, f, c, g, i, j);
    FieldAxpyAt(n, f, c, g, i - 1, j);
    FieldAxpyAt(n, f, c, g, i + 1, j);
    FieldAxpyAt(n, f, c, g, i, j - 1);
    FieldAxpyAt(n, f, c, g, i, j + 1);
    StencilProduct(At(Row(g, i), j), At(Row(g, i - 1), j), At(Row(g, i + 1), j),
                   At(Row(g, i), j - 1), At(Row(g, i), j + 1), c);
  }

  lemma OperatorAt(n: nat, f: Field, h: real, i: int, j: int)
    requires IsField(n, f) && h > 0.0 && 0 <= i < n && 0 <= j < n
    ensures At(Row(NegativeLaplacian(n, f, h), i), j) == Times(InverseSquare(h), Stencil(f, i, j))
  {
    hide Stencil;
    assert At(Row(StencilField(n, f), i), j) == Stencil(f, i, j);
    DivideIsTimes(Stencil(f, i, j), h);
  }

  lemma FieldsEqual(n: nat, f: Field, g: Field)
    requires IsField(n, f) && IsField(n, g)
    requires forall i, j :: 0 <= i < n && 0 <= j < n ==> At(Row(f, i), j) == At(Row(g, i), j)
    ensures f == g
  {
    forall i | 0 <= i < n ensures f[i] == g[i] {
      forall j | 0 <= j < n ensures f[i][j] == g[i][j] {
        assert At(Row(f, i), j) == At(Row(g, i), j);
      }
    }
  }

  /** L(f + c g) == Lf + c Lg */
  lemma OperatorLinear(n: nat, f: Field, c: real, g: Field, h: real)
    requires IsField(n, f) && IsField(n, g) && h > 0.0
    ensures NegativeLaplacian(n, FieldAxpy(n, f, c, g), h)
         == FieldAxpy(n, NegativeLaplacian(n, f, h), c, NegativeLaplacian(n, g, h))
  {
    hide Times, FieldAxpy, NegativeLaplacian, Stencil, At, Row, InverseSquare;
    var lf, lg, d := NegativeLaplacian(n, f, h), NegativeLaplacian(n, g, h), InverseSquare(h);
    forall i, j | 0 <= i < n && 0 <= j < n
      ensures At(Row(NegativeLaplacian(n, FieldAxpy(n, f, c, g), h), i), j) == At(Row(FieldAxpy(n, lf, c, lg), i), j)
    {
      var x, y := Stencil(f, i, j), Stencil(g, i, j);
      StencilLinear(n, f, c, g, i, j);
      OperatorAt(n, FieldAxpy(n, f, c, g), h, i, j);
      OperatorAt(n, f, h, i, j);
      OperatorAt(n, g, h, i, j);
      FieldAxpyAt(n, lf, c, lg, i, j);
      TimesAdd(d, x, Times(c, y));
      TimesAssociative(d, c, y);
      TimesAssociative(c, d, y);
      TimesSymmetric(c, d);
    }
    FieldsEqual(n, NegativeLaplacian(n, FieldAxpy(n, f, c, g), h), FieldAxpy(n, lf, c, lg));
  }
}
