/**
  The solver loop.  The floating-point tolerance test is taken over exact reals, and the
  manufactured forcing is an arbitrary field.
 */
module PoissonSolver {
  import opened Vectors
  import opened PoissonOperator
  import opened ConjugateGradient
  import FiniteTermination
  import opened ForcingModes

  const ITERATION_LIMIT: nat := 256
  const TOLERANCE: real := 0.000000000000000000000001

  datatype Outcome =
    | Solved(solution: Field, iterations: nat, energy: real)
      /** Zero forcing: the relative residual divides by the zero initial energy. */
    | ZeroDivision

  predicate Converged(p: Problem, k: nat)
    requires Valid(p)
  {
    Energy(p, k) <= Energy(p, 0) * TOLERANCE
  }

  lemma ThresholdPositive(e: real)
    requires e > 0.0
    ensures e * TOLERANCE > 0.0
  {
  }

  /** Unless a residual met the tolerance, none vanished. */
  lemma RunningWhileUnconverged(p: Problem, k: nat)
    requires Valid(p) && Energy(p, 0) > 0.0
    requires forall i: nat :: 1 <= i < k ==> !Converged(p, i)
    ensures Running(p, k)
  {
    hide StateAt;
    ThresholdPositive(Energy(p, 0));
    forall i: nat | i < k ensures StateAt(p, i).energy != 0.0 {
      if i > 0 { assert !Converged(p, i); }
    }
  }

  /** The result is the solution after the first iteration that met the tolerance, or after
      256; on a grid of at most 16 x 16 points the tolerance is always met, and on every grid
      within n^2 iterations.  A forcing made of m modes takes at most m iterations on any grid. */
  method Solve(n: nat, forcing: Field) returns (r: Outcome)
    requires IsField(n, forcing)
    ensures r.ZeroDivision? <==> IsZero(n, n, forcing)
    ensures r.Solved? ==>
      var p := Problem(n, 1.0 / (n + 1) as real, forcing);
      && 1 <= r.iterations <= 256
      && r.iterations <= n * n
      && r.solution == X(p, r.iterations)
      && IsField(n, r.solution)
      && r.energy == Inner(n, ResidualOf(p, r.solution), ResidualOf(p, r.solution)) == Energy(p, r.iterations)
      && Running(p, r.iterations)
      && (forall i: nat :: 1 <= i < r.iterations ==> Energy(p, i) > Energy(p, 0) * 0.000000000000000000000001)
      && (r.energy > Energy(p, 0) * 0.000000000000000000000001 ==> r.iterations == 256)
      && (n <= 16 ==> r.energy <= Energy(p, 0) * 0.000000000000000000000001)
      && (forall modes :: Composes(p, modes) ==>
            r.iterations <= |modes|
            && (|modes| <= 256 ==> r.energy <= Energy(p, 0) * 0.000000000000000000000001))
  {
    hide StateAt, Inner, NegativeLaplacian, FieldAxpy, IsZero, Times, Composes;
    var spacing := 1.0 / (n + 1) as real;
    ghost var p := Problem(n, spacing, forcing);
    InnerDefinite(n, forcing);
    var solution, residual, direction := ZeroField(n), forcing, forcing;
    var residualEnergy := Inner(n, residual, residual);
    var initialEnergy := residualEnergy;
    Start(p);
    if initialEnergy == 0.0 {
      return ZeroDivision;
    }
    var iterations: nat := 0;
    var stopped := false;
    while iterations < ITERATION_LIMIT && !stopped
      invariant 0 <= iterations <= ITERATION_LIMIT
      invariant Valid(p) && Energy(p, 0) == initialEnergy > 0.0
      invariant IsField(n, solution) && IsField(n, residual) && IsField(n, direction)
      invariant solution == X(p, iterations) && residual == R(p, iterations)
      invariant residualEnergy == Energy(p, iterations)
      invariant stopped ==> iterations > 0 && Converged(p, iterations)
      invariant !stopped ==> direction == D(p, iterations)
      invariant forall i: nat :: 1 <= i < iterations ==> !Converged(p, i)
      invariant !stopped && iterations > 0 ==> !Converged(p, iterations)
      decreases ITERATION_LIMIT - iterations, !stopped
    {
      RunningWhileUnconverged(p, iterations + 1);
      RunInvariant(p, iterations);
      assert StateAt(p, iterations).energy != 0.0;
      CurvaturePositive(p, iterations);
      UpdatesAre(p, iterations);
      EnergyIsSquare(p, iterations + 1);
      var image := NegativeLaplacian(n, direction, spacing);
      assert image == Image(p, iterations);
      var step := residualEnergy / Inner(n, direction, image);
      solution := FieldAxpy(n, solution, step, direction);
      residual := FieldAxpy(n, residual, -step, image);
      var nextEnergy := Inner(n, residual, residual);
      iterations := iterations + 1;
      if nextEnergy <= initialEnergy * TOLERANCE {
        residualEnergy := nextEnergy;
        stopped := true;
      } else {
        direction := FieldAxpy(n, residual, nextEnergy / residualEnergy, direction);
        residualEnergy := nextEnergy;
      }
    }
    RunningWhileUnconverged(p, iterations);
    FiniteTermination.RunIsFinite(p, iterations);
    ResidualIsExact(p, iterations);
    EnergyIsSquare(p, iterations);
    if n <= 16 && !Converged(p, iterations) {
      RunningWhileUnconverged(p, iterations + 1);
      FiniteTermination.RunIsFinite(p, iterations + 1);
      SmallGrid(n);
      assert false;
    }
    StopsWithinModes(p, iterations);
    forall i: nat | 1 <= i < iterations
      ensures Energy(p, i) > Energy(p, 0) * TOLERANCE
    {
      assert !Converged(p, i);
    }
    r := Solved(solution, iterations, residualEnergy);
  }

  /** A forcing made of m modes takes at most m iterations, and converges if the limit allows them. */
  lemma StopsWithinModes(p: Problem, k: nat)
    requires Valid(p) && Energy(p, 0) > 0.0 && (Converged(p, k) || k == ITERATION_LIMIT)
    requires forall i: nat :: 1 <= i < k ==> !Converged(p, i)
    ensures forall modes :: Composes(p, modes) ==> k <= |modes| && (|modes| <= ITERATION_LIMIT ==> Converged(p, k))
  {
    hide Composes, StateAt, Running;
    RunningWhileUnconverged(p, k);
    forall modes | Composes(p, modes) ensures k <= |modes| && (|modes| <= ITERATION_LIMIT ==> Converged(p, k)) {
      RunWithinModes(p, modes, k);
      if !Converged(p, k) {
        RunningWhileUnconverged(p, k + 1);
        RunWithinModes(p, modes, k + 1);
      }
    }
  }

  lemma Start(p: Problem)
    requires Valid(p)
    ensures X(p, 0) == ZeroField(p.n) && R(p, 0) == D(p, 0) == p.forcing
    ensures Energy(p, 0) == Inner(p.n, p.forcing, p.forcing)
  {
    hide Inner;
  }

  lemma SmallGrid(n: nat)
    requires n <= 16
    ensures n * n <= ITERATION_LIMIT
  {
  }
}
