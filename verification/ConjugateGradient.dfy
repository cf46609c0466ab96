/**
  The conjugate gradient loop of the Poisson solver in exact arithmetic: the state after
  k iterations, the invariants of every run, and the loop itself.
 */
module ConjugateGradient {
  import opened Vectors
  import opened PoissonOperator

  datatype Problem = Problem(n: nat, spacing: real, forcing: Field)

  datatype State = State(solution: Field, residual: Field, direction: Field, energy: real)

  predicate Valid(p: Problem) {
    p.spacing > 0.0 && IsField(p.n, p.forcing)
  }

  predicate Shaped(n: nat, s: State) {
    IsField(n, s.solution) && IsField(n, s.residual) && IsField(n, s.direction)
  }

  function Apply(p: Problem, f: Field): (g: Field)
    requires Valid(p) && IsField(p.n, f)
    ensures IsField(p.n, g)
  {
    NegativeLaplacian(p.n, f, p.spacing)
  }

  function Initial(p: Problem): (s: State)
    requires Valid(p)
    ensures Shaped(p.n, s)
  {
    State(ZeroField(p.n), p.forcing, p.forcing, Inner(p.n, p.forcing, p.forcing))
  }

  function StepLength(p: Problem, s: State): real
    requires Valid(p) && Shaped(p.n, s)
  {
    Quotient(s.energy, Inner(p.n, s.direction, Apply(p, s.direction)))
  }

  /** One pass through the loop body, the direction update included. */
  function Iterate(p: Problem, s: State): (t: State)
    requires Valid(p) && Shaped(p.n, s)
    ensures Shaped(p.n, t)
  {
    var step := StepLength(p, s);
    var solution := FieldAxpy(p.n, s.solution, step, s.direction);
    var residual := FieldAxpy(p.n, s.residual, -step, Apply(p, s.direction));
    var energy := Inner(p.n, residual, residual);
    State(solution, residual, FieldAxpy(p.n, residual, Quotient(energy, s.energy), s.direction), energy)
  }

  function StateAt(p: Problem, k: nat): (s: State)
    requires Valid(p)
    ensures Shaped(p.n, s)
  {
    if k == 0 then Initial(p) else Iterate(p, StateAt(p, k - 1))
  }

  /** No residual before iteration k vanished, so the loop is entered k times. */
  ghost predicate Running(p: Problem, k: nat)
    requires Valid(p)
  {
    forall i: nat :: i < k ==> StateAt(p, i).energy != 0.0
  }

  // ----- Names for the quantities of iteration k.

  function X(p: Problem, k: nat): (f: Field)
    requires Valid(p)
    ensures IsField(p.n, f)
  { StateAt(p, k).solution }

  function R(p: Problem, k: nat): (f: Field)
    requires Valid(p)
    ensures IsField(p.n, f)
  { StateAt(p, k).residual }

  function D(p: Problem, k: nat): (f: Field)
    requires Valid(p)
    ensures IsField(p.n, f)
  { StateAt(p, k).direction }

  function Image(p: Problem, k: nat): (f: Field)
    requires Valid(p)
    ensures IsField(p.n, f)
  { Apply(p, D(p, k)) }

  function Energy(p: Problem, k: nat): real
    requires Valid(p)
  { StateAt(p, k).energy }

  function Curvature(p: Problem, k: nat): real
    requires Valid(p)
  { Inner(p.n, D(p, k), Image(p, k)) }

  function Alpha(p: Problem, k: nat): real
    requires Valid(p)
  { Quotient(Energy(p, k), Curvature(p, k)) }

  function Beta(p: Problem, k: nat): real
    requires Valid(p)
  { Quotient(Energy(p, k + 1), Energy(p, k)) }

  // ----- One-step facts.

  lemma EnergyIsSquare(p: Problem, k: nat)
    requires Valid(p)
    ensures Energy(p, k) == Inner(p.n, R(p, k), R(p, k)) >= 0.0
  {
    InnerDefinite(p.n, R(p, k));
  }

  lemma DirectionStarts(p: Problem)
    requires Valid(p)
    ensures D(p, 0) == R(p, 0)
  {
    hide Inner;
  }

  lemma UpdatesAre(p: Problem, k: nat)
    requires Valid(p)
    ensures X(p, k + 1) == FieldAxpy(p.n, X(p, k), Alpha(p, k), D(p, k))
    ensures R(p, k + 1) == FieldAxpy(p.n, R(p, k), -Alpha(p, k), Image(p, k))
    ensures D(p, k + 1) == FieldAxpy(p.n, R(p, k + 1), Beta(p, k), D(p, k))
  {
    hide Times, Inner, FieldAxpy, NegativeLaplacian, Quotient;
  }

  lemma BetaScales(p: Problem, k: nat)
    requires Valid(p) && Energy(p, k) != 0.0
    ensures Times(Beta(p, k), Energy(p, k)) == Energy(p, k + 1)
  {
    hide Times, StateAt;
  }

  /** <r', w> == <r, w> - alpha <Ld, w> */
  lemma ResidualStep(p: Problem, k: nat, w: Field)
    requires Valid(p)
    ensures Inner(p.n, R(p, k + 1), w)
         == Inner(p.n, R(p, k), w) - Times(Alpha(p, k), Inner(p.n, Image(p, k), w))
  {
    hide Times, Inner, FieldAxpy, StateAt, Alpha, Apply;
    UpdatesAre(p, k);
    InnerAxpy(p.n, R(p, k), -Alpha(p, k), Image(p, k), w);
    TimesNegate(Alpha(p, k), Inner(p.n, Image(p, k), w));
  }

  /** <d', w> == <r', w> + beta <d, w> */
  lemma DirectionStep(p: Problem, k: nat, w: Field)
    requires Valid(p)
    ensures Inner(p.n, D(p, k + 1), w)
         == Inner(p.n, R(p, k + 1), w) + Times(Beta(p, k), Inner(p.n, D(p, k), w))
  {
    hide Times, Inner, FieldAxpy, StateAt, Alpha, Beta, Apply;
    UpdatesAre(p, k);
    InnerAxpy(p.n, R(p, k + 1), Beta(p, k), D(p, k), w);
  }

  /** <Ld_i, d_j> is the same either way round. */
  lemma ImageSymmetric(p: Problem, i: nat, j: nat)
    requires Valid(p)
    ensures Inner(p.n, D(p, i), Image(p, j)) == Inner(p.n, Image(p, i), D(p, j)) == Inner(p.n, D(p, j), Image(p, i))
  {
    hide Inner, StateAt, NegativeLaplacian;
    OperatorSymmetric(p.n, D(p, i), p.spacing, D(p, j));
    InnerSymmetric(p.n, D(p, j), Image(p, i));
  }

  // ----- The invariant of every run.

  ghost predicate ResidualsOrthogonal(p: Problem, k: nat)
    requires Valid(p)
  {
    forall i: nat, j: nat {:trigger R(p, i), R(p, j)} :: i < j <= k ==> Inner(p.n, R(p, i), R(p, j)) == 0.0
  }

  ghost predicate DirectionsConjugate(p: Problem, k: nat)
    requires Valid(p)
  {
    forall i: nat, j: nat {:trigger D(p, i), Image(p, j)} :: i < j <= k ==> Inner(p.n, D(p, i), Image(p, j)) == 0.0
  }

  /** Each residual is orthogonal to every earlier direction. */
  ghost predicate ResidualsDescended(p: Problem, k: nat)
    requires Valid(p)
  {
    forall i: nat, j: nat {:trigger D(p, i), R(p, j)} :: i < j <= k ==> Inner(p.n, D(p, i), R(p, j)) == 0.0
  }

  ghost predicate Aligned(p: Problem, k: nat)
    requires Valid(p)
  {
    forall i: nat {:trigger D(p, i)} :: i <= k ==> Inner(p.n, D(p, i), R(p, i)) == Energy(p, i)
  }

  ghost predicate Invariant(p: Problem, k: nat)
    requires Valid(p)
  {
    ResidualsOrthogonal(p, k) && DirectionsConjugate(p, k) && ResidualsDescended(p, k) && Aligned(p, k)
  }

  lemma {:induction false} InnerRowsOfZero(n: nat, k: nat, f: Field, g: Field)
    requires IsZero(n, k, f)
    ensures InnerRows(n, k, f, g) == 0.0
  {
    hide Dot;
    if k > 0 {
      InnerRowsOfZero(n, k - 1, f, g);
      DotZero(n, Row(f, k - 1), Row(g, k - 1));
    }
  }

  /** The step denominator is positive while the residual is nonzero. */
  lemma CurvaturePositive(p: Problem, k: nat)
    requires Valid(p) && Aligned(p, k) && Energy(p, k) != 0.0
    ensures Curvature(p, k) > 0.0 && Alpha(p, k) > 0.0
    ensures Times(Alpha(p, k), Curvature(p, k)) == Energy(p, k)
  {
    hide Times, InnerRows, StateAt, NegativeLaplacian;
    var d := D(p, k);
    if IsZero(p.n, p.n, d) {
      InnerRowsOfZero(p.n, p.n, d, R(p, k));
      assert false;
    }
    OperatorPositive(p.n, d, p.spacing);
    InnerSymmetric(p.n, d, Image(p, k));
    EnergyIsSquare(p, k);
    QuotientPositive(Energy(p, k), Curvature(p, k));
  }

  lemma QuotientPositive(a: real, b: real)
    requires a > 0.0 && b > 0.0
    ensures Quotient(a, b) > 0.0
  {
  }

  lemma DescendStep(p: Problem, k: nat, i: nat)
    requires Valid(p) && Invariant(p, k) && Energy(p, k) != 0.0 && i <= k
    ensures Inner(p.n, D(p, i), R(p, k + 1)) == 0.0
  {
    hide Times, Inner, StateAt, Apply, Alpha;
    CurvaturePositive(p, k);
    ResidualStep(p, k, D(p, i));
    InnerSymmetric(p.n, D(p, i), R(p, k + 1));
    InnerSymmetric(p.n, D(p, i), R(p, k));
    InnerSymmetric(p.n, D(p, i), Image(p, k));
    TimesZero(Alpha(p, k));
    assert i < k ==> Inner(p.n, D(p, i), R(p, k)) == 0.0 && Inner(p.n, D(p, i), Image(p, k)) == 0.0;
  }

  lemma OrthogonalStep(p: Problem, k: nat, i: nat)
    requires Valid(p) && Invariant(p, k) && Energy(p, k) != 0.0 && i <= k
    ensures Inner(p.n, R(p, i), R(p, k + 1)) == 0.0
  {
    hide Times, Inner, StateAt, Apply, Beta;
    DescendStep(p, k, i);
    if i == 0 {
      DirectionStarts(p);
    } else {
      DescendStep(p, k, i - 1);
      DirectionStep(p, i - 1, R(p, k + 1));
      TimesZero(Beta(p, i - 1));
    }
  }

  lemma AlignStep(p: Problem, k: nat)
    requires Valid(p) && Invariant(p, k) && Energy(p, k) != 0.0
    ensures Inner(p.n, D(p, k + 1), R(p, k + 1)) == Energy(p, k + 1)
  {
    hide Times, Inner, StateAt, Apply, Beta;
    DescendStep(p, k, k);
    DirectionStep(p, k, R(p, k + 1));
    TimesZero(Beta(p, k));
    EnergyIsSquare(p, k + 1);
  }

  /** alpha_i <Ld_i, r'> == <r_i, r'> - <r_{i+1}, r'> is the drop between consecutive residuals. */
  lemma ConjugateStep(p: Problem, k: nat, i: nat)
    requires Valid(p) && Running(p, k + 1) && Invariant(p, k) && i <= k
    ensures Inner(p.n, D(p, i), Image(p, k + 1)) == 0.0
  {
    hide Times, Inner, StateAt, Apply, Alpha, Beta, R, D;
    var r := R(p, k + 1);
    assert Energy(p, i) != 0.0 && Energy(p, k) != 0.0;
    assert Aligned(p, i);
    CurvaturePositive(p, i);
    ResidualStep(p, i, r);
    OrthogonalStep(p, k, i);
    ImageSymmetric(p, i, k + 1);
    DirectionStep(p, k, Image(p, i));
    InnerSymmetric(p.n, r, Image(p, i));
    if i < k {
      OrthogonalStep(p, k, i + 1);
      NoZeroDivisor(Alpha(p, i), Inner(p.n, Image(p, i), r));
      ImageSymmetric(p, i, k);
      TimesZero(Beta(p, k));
    } else {
      EnergyIsSquare(p, k + 1);
      BetaScales(p, k);
      ConjugateScalars(Alpha(p, k), Beta(p, k), Inner(p.n, Image(p, k), r),
                       Curvature(p, k), Energy(p, k), Energy(p, k + 1));
    }
  }

  lemma ConjugateScalars(alpha: real, beta: real, cross: real, curvature: real, energy: real, next: real)
    requires alpha != 0.0
    requires Times(alpha, cross) == -next
    requires Times(alpha, curvature) == energy
    requires Times(beta, energy) == next
    ensures cross + Times(beta, curvature) == 0.0
  {
    hide Times;
    TimesAdd(alpha, cross, Times(beta, curvature));
    TimesAssociative(alpha, beta, curvature);
    TimesSymmetric(alpha, beta);
    TimesAssociative(beta, alpha, curvature);
    NoZeroDivisor(alpha, cross + Times(beta, curvature));
  }

  /** For every grid, forcing and number of iterations run, residuals are pairwise orthogonal
      and directions pairwise L-conjugate. */
  lemma {:induction false} RunInvariant(p: Problem, k: nat)
    requires Valid(p) && Running(p, k)
    ensures Invariant(p, k)
  {
    hide Inner, StateAt, Apply, R, D, Image;
    if k == 0 {
      DirectionStarts(p);
      EnergyIsSquare(p, 0);
    } else {
      RunInvariant(p, k - 1);
      assert StateAt(p, k - 1).energy != 0.0;
      forall i: nat | i < k
        ensures Inner(p.n, D(p, i), R(p, k)) == 0.0
        ensures Inner(p.n, R(p, i), R(p, k)) == 0.0
        ensures Inner(p.n, D(p, i), Image(p, k)) == 0.0
      {
        DescendStep(p, k - 1, i);
        OrthogonalStep(p, k - 1, i);
        ConjugateStep(p, k - 1, i);
      }
      AlignStep(p, k - 1);
    }
  }

  // ----- The residual is the residual of the solution.

  function ResidualOf(p: Problem, x: Field): (f: Field)
    requires Valid(p) && IsField(p.n, x)
    ensures IsField(p.n, f)
  {
    FieldAxpy(p.n, p.forcing, -1.0, Apply(p, x))
  }

  lemma ApplyZero(p: Problem, i: int, j: int)
    requires Valid(p) && 0 <= i < p.n && 0 <= j < p.n
    ensures At(Row(Apply(p, ZeroField(p.n)), i), j) == 0.0
  {
    hide Times, InverseSquare;
    OperatorAt(p.n, ZeroField(p.n), p.spacing, i, j);
    TimesZero(InverseSquare(p.spacing));
  }

  /** b - (u + c v) == (b - u) - c v, entry by entry. */
  lemma SubtractSum(n: nat, b: Field, u: Field, c: real, v: Field)
    requires IsField(n, b) && IsField(n, u) && IsField(n, v)
    ensures FieldAxpy(n, b, -1.0, FieldAxpy(n, u, c, v)) == FieldAxpy(n, FieldAxpy(n, b, -1.0, u), -c, v)
  {
    hide Times, FieldAxpy, At, Row;
    forall i, j | 0 <= i < n && 0 <= j < n
      ensures At(Row(FieldAxpy(n, b, -1.0, FieldAxpy(n, u, c, v)), i), j)
           == At(Row(FieldAxpy(n, FieldAxpy(n, b, -1.0, u), -c, v), i), j)
    {
      var y := At(Row(v, i), j);
      FieldAxpyAt(n, u, c, v, i, j);
      FieldAxpyAt(n, b, -1.0, u, i, j);
      FieldAxpyAt(n, b, -1.0, FieldAxpy(n, u, c, v), i, j);
      FieldAxpyAt(n, FieldAxpy(n, b, -1.0, u), -c, v, i, j);
      TimesAdd(-1.0, At(Row(u, i), j), Times(c, y));
      TimesNegate(1.0, Times(c, y));
      TimesZero(Times(c, y));
      TimesNegate(c, y);
    }
    FieldsEqual(n, FieldAxpy(n, b, -1.0, FieldAxpy(n, u, c, v)), FieldAxpy(n, FieldAxpy(n, b, -1.0, u), -c, v));
  }

  /** residual == forcing - L(solution) after any number of iterations. */
  lemma {:induction false} ResidualIsExact(p: Problem, k: nat)
    requires Valid(p)
    ensures R(p, k) == ResidualOf(p, X(p, k))
  {
    hide Times, FieldAxpy, Apply, Alpha, Beta, D, Image, Inner;
    if k == 0 {
      forall i, j | 0 <= i < p.n && 0 <= j < p.n
        ensures At(Row(p.forcing, i), j) == At(Row(ResidualOf(p, ZeroField(p.n)), i), j)
      {
        ApplyZero(p, i, j);
        FieldAxpyAt(p.n, p.forcing, -1.0, Apply(p, ZeroField(p.n)), i, j);
        TimesZero(-1.0);
      }
      FieldsEqual(p.n, p.forcing, ResidualOf(p, ZeroField(p.n)));
    } else {
      hide StateAt, R, X;
      ResidualIsExact(p, k - 1);
      UpdatesAre(p, k - 1);
      ApplyStep(p, k - 1);
      SubtractSum(p.n, p.forcing, Apply(p, X(p, k - 1)), Alpha(p, k - 1), Image(p, k - 1));
    }
  }

  lemma ApplyStep(p: Problem, k: nat)
    requires Valid(p)
    ensures Apply(p, X(p, k + 1)) == FieldAxpy(p.n, Apply(p, X(p, k)), Alpha(p, k), Image(p, k))
  {
    hide Times, FieldAxpy, Alpha, Beta, D, X, R, StateAt, Inner, NegativeLaplacian;
    UpdatesAre(p, k);
    OperatorLinear(p.n, X(p, k), Alpha(p, k), D(p, k), p.spacing);
  }

  // ----- Energy: 1/2 <Lx, x> - <b, x>.

  function Potential(p: Problem, x: Field): real
    requires Valid(p) && IsField(p.n, x)
  {
    0.5 * Inner(p.n, Apply(p, x), x) - Inner(p.n, p.forcing, x)
  }

  /** <L(x + c d), x + c d>, expanded. */
  lemma FormOfSum(p: Problem, x: Field, c: real, d: Field)
    requires Valid(p) && IsField(p.n, x) && IsField(p.n, d)
    ensures var y := FieldAxpy(p.n, x, c, d);
            Inner(p.n, Apply(p, y), y) == Inner(p.n, Apply(p, x), x) + 2.0 * Times(c, Inner(p.n, Apply(p, x), d))
                                          + Times(c, Times(c, Inner(p.n, Apply(p, d), d)))
  {
    hide Times, Inner, FieldAxpy, NegativeLaplacian;
    var n, y, lx, ld := p.n, FieldAxpy(p.n, x, c, d), Apply(p, x), Apply(p, d);
    OperatorLinear(n, x, c, d, p.spacing);
    InnerAxpy(n, lx, c, ld, y);
    InnerAxpy(n, x, c, d, lx);
    InnerAxpy(n, x, c, d, ld);
    OperatorSymmetric(n, d, p.spacing, x);
    InnerSymmetric(n, d, lx);
    TimesAdd(c, Inner(n, ld, x), Times(c, Inner(n, ld, d)));
  }

  lemma PotentialOfSum(p: Problem, x: Field, c: real, d: Field)
    requires Valid(p) && IsField(p.n, x) && IsField(p.n, d)
    ensures Potential(p, FieldAxpy(p.n, x, c, d))
         == Potential(p, x) - Times(c, Inner(p.n, ResidualOf(p, x), d))
            + 0.5 * Times(c, Times(c, Inner(p.n, Apply(p, d), d)))
  {
    hide Times, Inner, FieldAxpy, Apply;
    var n, lx := p.n, Apply(p, x);
    FormOfSum(p, x, c, d);
    InnerAxpy(n, x, c, d, p.forcing);
    InnerAxpy(n, p.forcing, -1.0, lx, d);
    TimesNegate(1.0, Inner(n, lx, d));
    TimesZero(Inner(n, lx, d));
    TimesSubtract(c, Inner(n, p.forcing, d), Inner(n, lx, d));
  }

  /** Every iteration lowers the energy, by half the step length times the residual energy. */
  lemma PotentialDecreases(p: Problem, k: nat)
    requires Valid(p) && Running(p, k + 1)
    ensures Potential(p, X(p, k + 1)) == Potential(p, X(p, k)) - 0.5 * Times(Alpha(p, k), Energy(p, k))
    ensures Potential(p, X(p, k + 1)) < Potential(p, X(p, k))
  {
    hide Times, Inner, FieldAxpy, Apply, Alpha, StateAt, Potential, R, X, D;
    assert StateAt(p, k).energy != 0.0;
    RunInvariant(p, k);
    CurvaturePositive(p, k);
    EnergyIsSquare(p, k);
    UpdatesAre(p, k);
    ResidualIsExact(p, k);
    PotentialOfSum(p, X(p, k), Alpha(p, k), D(p, k));
    InnerSymmetric(p.n, D(p, k), R(p, k));
    InnerSymmetric(p.n, D(p, k), Image(p, k));
    TimesPositive(Alpha(p, k), Energy(p, k));
  }

  // ----- Optimality over the whole search space.

  /** The field with coordinates `c` along the first |c| directions. */
  function Combination(p: Problem, c: seq<real>): (y: Field)
    requires Valid(p)
    ensures IsField(p.n, y)
  {
    if |c| == 0 then ZeroField(p.n)
    else FieldAxpy(p.n, Combination(p, c[..|c| - 1]), c[|c| - 1], D(p, |c| - 1))
  }

  lemma {:induction false} CombinationOrthogonal(p: Problem, c: seq<real>, k: nat)
    requires Valid(p) && Invariant(p, k) && |c| <= k
    ensures Inner(p.n, R(p, k), Combination(p, c)) == 0.0
  {
    hide Times, Inner, FieldAxpy, R, D;
    if |c| == 0 {
      InnerZero(p.n, R(p, k));
    } else {
      var m := |c| - 1;
      CombinationOrthogonal(p, c[..m], k);
      InnerAxpy(p.n, Combination(p, c[..m]), c[m], D(p, m), R(p, k));
      InnerSymmetric(p.n, D(p, m), R(p, k));
      TimesZero(c[m]);
    }
  }

  lemma InnerZero(n: nat, f: Field)
    ensures Inner(n, f, ZeroField(n)) == 0.0
  {
    hide InnerRows;
    InnerRowsZero(n, n, f);
    InnerSymmetric(n, f, ZeroField(n));
  }

  function StepLengths(p: Problem, k: nat): (c: seq<real>)
    requires Valid(p)
    ensures |c| == k
  {
    if k == 0 then [] else StepLengths(p, k - 1) + [Alpha(p, k - 1)]
  }

  lemma {:induction false} SolutionIsCombination(p: Problem, k: nat)
    requires Valid(p)
    ensures X(p, k) == Combination(p, StepLengths(p, k))
  {
    hide FieldAxpy, Alpha, Inner;
    if k > 0 {
      SolutionIsCombination(p, k - 1);
      UpdatesAre(p, k - 1);
      assert StepLengths(p, k)[..k - 1] == StepLengths(p, k - 1);
    }
  }

  /** After k iterations the solution has the least energy of all fields the first k directions span. */
  lemma SolutionIsOptimal(p: Problem, k: nat, c: seq<real>)
    requires Valid(p) && Running(p, k) && |c| == k
    ensures Potential(p, X(p, k)) <= Potential(p, Combination(p, c))
  {
    hide Times, Inner, FieldAxpy, Apply, Alpha, StateAt, Potential, R, D, X, Combination, ResidualOf;
    var x, y := X(p, k), Combination(p, c);
    var z := FieldAxpy(p.n, y, -1.0, x);
    RunInvariant(p, k);
    ResidualIsExact(p, k);
    SolutionIsCombination(p, k);
    CombinationOrthogonal(p, c, k);
    CombinationOrthogonal(p, StepLengths(p, k), k);
    InnerAxpy(p.n, y, -1.0, x, R(p, k));
    TimesZero(-1.0);
    AddDifference(p.n, x, y);
    PotentialOfSum(p, x, 1.0, z);
    TimesZero(Inner(p.n, R(p, k), z));
    TimesZero(Inner(p.n, Apply(p, z), z));
    FormNonnegative(p, z);
  }

  lemma FormNonnegative(p: Problem, z: Field)
    requires Valid(p) && IsField(p.n, z)
    ensures Inner(p.n, Apply(p, z), z) >= 0.0
  {
    OperatorPositive(p.n, z, p.spacing);
  }

  /** x + (y - x) == y */
  lemma AddDifference(n: nat, x: Field, y: Field)
    requires IsField(n, x) && IsField(n, y)
    ensures FieldAxpy(n, x, 1.0, FieldAxpy(n, y, -1.0, x)) == y
  {
    hide Times, FieldAxpy, At, Row;
    var z := FieldAxpy(n, y, -1.0, x);
    forall i, j | 0 <= i < n && 0 <= j < n ensures At(Row(FieldAxpy(n, x, 1.0, z), i), j) == At(Row(y, i), j) {
      FieldAxpyAt(n, y, -1.0, x, i, j);
      FieldAxpyAt(n, x, 1.0, z, i, j);
      TimesZero(At(Row(z, i), j));
      TimesNegate(1.0, At(Row(x, i), j));
      TimesZero(At(Row(x, i), j));
    }
    FieldsEqual(n, FieldAxpy(n, x, 1.0, z), y);
  }
}
