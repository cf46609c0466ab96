# Handoff layout, artifact publication and numerical workers: a verified model

This project models five programs of the repository and proves what they are for.

* **Handoff layout provisioner** (`autonomous-submission-handoff-layout-provision.c`). The streaming
  SHA-256 is a class over a 64-byte block and is proved to compute the one-shot function of FIPS 180-4
  for every way of splitting a message (`Sha256Spec`, `Sha256`); what its functions mean is said bit by
  bit, and its constants are proved to be the fractional parts of roots of the first primes
  (`Sha256Meaning`). The receipt printer and the strict parser are proved exact inverses, as functions
  (`ReceiptFormat`, `ReceiptRoundTrip`) and as the buffer and cursor code (`ReceiptCode`), and a reader
  of JSON that knows nothing of the format finds every value under its name (`Json`, `ReceiptMeaning`).
  The provisioning run is a machine of single system calls that may stop after any of them
  (`Provisioning`, `ProvisioningTheorems`, `ProvisioningRuns`). What it leaves is said in terms of
  users: who may read, write, search and remove what, by the permission rules of POSIX (`Permissions`,
  `LeftTemporaries`, `ProvisionedLayout`).
* **Replay artifact publisher** (`capability-operational-evidence.mjs`). A class over a shared name
  space. Between any two of its calls another process may create, replace or remove any file outside
  the staging directory, and any call may fail. The world keeps the other processes' own history, the
  bindings they made and have not removed and when they changed a name; no step of the publisher
  writes it, and the guarantees are stated against it (`ArtifactPaths`, `PublicationWorld`,
  `PublicationSteps`, `ArtifactPublisher`).
* **Conjugate gradient Poisson solver**. The five-point operator on an n x n grid, the pairwise
  orthogonality and conjugacy invariant, optimality over the search space, and termination within n^2
  iterations, or within the number of modes of the forcing (`PoissonOperator`, `ConjugateGradient`,
  `FiniteTermination`, `SpectralTermination`, `ForcingModes`, `PoissonSolver`).
* **Reference numerical worker**. Gauss-Jordan elimination with partial pivoting and fixed-step
  gradient descent, for every dimension (`LinearSolver`, `GradientDescent`).
* **MLP trainer, its discrete core**. Shuffle, schedule, number stream, tensor bundle and memory plan
  (`Shuffle`, `TrainingSchedule`, `NumberStream`, `TensorBundle`, `MemoryPlan`).

Real arithmetic is exact throughout; `Vectors` holds the laws the numerical modules share. Digests,
draws, transforms, failures and the acts of other processes are functions of which nothing is assumed
beyond what a contract states, so every result holds for all of them.

Where a promised property is false of the code, the model keeps the code, exhibits an input and proves
the exact condition:

* a matrix that is regular but has a small pivot is refused (`LinearSolver.RegularMatrixRefused`,
  `LinearSolver.RefusedIff`), though none whose columns the diagonal dominates by more than 1e-12
  (`LinearSolver.DominantIsSolved`);
* an asymmetric quadratic can make a descent step ascend (`GradientDescent.AsymmetricMatrixCanAscend`,
  `GradientDescent.DescendsIff`);
* repeated layer ids lose parameters (`TensorBundle.RepeatedIdLosesBytes`, `TensorBundle.BundleSizeIff`);
* an artifact whose path leads into the staging directory is deleted by the discard that ends its own
  publication (`ArtifactPublisher.ArtifactLostToDiscard`, `ArtifactPublisher.SurvivesDiscardIff`);
* a foreign file that rollback moved aside can be lost although nobody removed it: after an incomplete
  rollback, discarding or publishing again deletes the quarantine with the file in it
  (`PublicationWorld.ForeignFileLostToDiscard`, `ArtifactPublisher.Publisher.LostToDiscardIff`). The
  replay program does so in its `finally` block (`migration/bin/run-production-capability-replays.mjs`,
  lines 432-434). A caller loses nothing if it neither discards nor publishes after a publication that
  reported its rollback incomplete: the file stays in the quarantine, and where no rollback was
  incomplete nothing waits there and every foreign binding stands.

## Model

| member | source | states |
|---|---|---|
| PoissonOperator.OperatorSymmetric | paper-adapters/research-verify/pde-poisson-2d-gpu-worker/canonical_cupy_poisson_2d_solver.py:56-64 | the zero-padded five-point operator is self-adjoint on every grid size |
| PoissonOperator.OperatorPositive | paper-adapters/research-verify/pde-poisson-2d-gpu-worker/canonical_cupy_poisson_2d_solver.py:56-64 | it is nonnegative on every field and strictly positive on every nonzero one |
| PoissonOperator.OperatorLinear | paper-adapters/research-verify/pde-poisson-2d-gpu-worker/canonical_cupy_poisson_2d_solver.py:56-64 | it is linear |
| ConjugateGradient.CurvaturePositive | paper-adapters/research-verify/pde-poisson-2d-gpu-worker/canonical_cupy_poisson_2d_solver.py:86-87 | while the residual is nonzero the step's denominator and the step are positive, so the division is defined |
| ConjugateGradient.RunInvariant | paper-adapters/research-verify/pde-poisson-2d-gpu-worker/canonical_cupy_poisson_2d_solver.py:79-96 | after any number of iterations all residuals so far are pairwise orthogonal, all directions pairwise conjugate, and every residual is orthogonal to the earlier directions |
| ConjugateGradient.ResidualIsExact | paper-adapters/research-verify/pde-poisson-2d-gpu-worker/canonical_cupy_poisson_2d_solver.py:79-96 | the updated residual is always forcing minus operator applied to the solution |
| ConjugateGradient.PotentialOfSum | paper-adapters/research-verify/pde-poisson-2d-gpu-worker/canonical_cupy_poisson_2d_solver.py:86-89 | the quadratic energy along any direction from any point, in closed form |
| ConjugateGradient.PotentialDecreases | paper-adapters/research-verify/pde-poisson-2d-gpu-worker/canonical_cupy_poisson_2d_solver.py:85-96 | every iteration lowers the quadratic energy, by exactly half the step times the residual energy |
| ConjugateGradient.SolutionIsCombination | paper-adapters/research-verify/pde-poisson-2d-gpu-worker/canonical_cupy_poisson_2d_solver.py:85-96 | the k-th solution is the combination of the first k directions with the step lengths taken |
| ConjugateGradient.SolutionIsOptimal | paper-adapters/research-verify/pde-poisson-2d-gpu-worker/canonical_cupy_poisson_2d_solver.py:85-96 | no combination of the first k directions has lower energy than the k-th solution |
| FiniteTermination.Bessel | paper-adapters/research-verify/pde-poisson-2d-gpu-worker/canonical_cupy_poisson_2d_solver.py:85-96 | the residuals so far satisfy Bessel's inequality against every field |
| FiniteTermination.RunIsFinite | paper-adapters/research-verify/pde-poisson-2d-gpu-worker/canonical_cupy_poisson_2d_solver.py:85-96 | the residual is exactly zero within n^2 iterations |
| SpectralTermination.EigenOrthogonal | paper-adapters/research-verify/pde-poisson-2d-gpu-worker/canonical_cupy_poisson_2d_solver.py:56-64 | eigenfields of the operator with different eigenvalues are orthogonal |
| SpectralTermination.RunStaysInSpan | paper-adapters/research-verify/pde-poisson-2d-gpu-worker/canonical_cupy_poisson_2d_solver.py:73-96 | if the forcing is a combination of eigenfields, every residual and direction is one of the same |
| SpectralTermination.Parseval | paper-adapters/research-verify/pde-poisson-2d-gpu-worker/canonical_cupy_poisson_2d_solver.py:73-77 | the energy of such a field is the sum of its parts along the modes |
| SpectralTermination.RunWithinSpectrum | paper-adapters/research-verify/pde-poisson-2d-gpu-worker/canonical_cupy_poisson_2d_solver.py:73-96 | a forcing made of eigenfields with m different eigenvalues is solved within m iterations on every grid |
| ForcingModes.Merge | paper-adapters/research-verify/pde-poisson-2d-gpu-worker/canonical_cupy_poisson_2d_solver.py:73-77 | any combination of k eigenfields is one of at most k eigenfields with different eigenvalues |
| ForcingModes.RunWithinModes | paper-adapters/research-verify/pde-poisson-2d-gpu-worker/canonical_cupy_poisson_2d_solver.py:73-96 | a forcing made of m eigenfields is solved within m iterations on every grid, whether or not eigenvalues coincide |
| ForcingModes.ProductIsEigen | paper-adapters/research-verify/pde-poisson-2d-gpu-worker/canonical_cupy_poisson_2d_solver.py:74-77 | the product of two vectors that vanish beyond both ends and satisfy a three-term recurrence, as sampled sines do, is an eigenfield, with its eigenvalue |
| PoissonSolver.Solve | paper-adapters/research-verify/pde-poisson-2d-gpu-worker/canonical_cupy_poisson_2d_solver.py:67-99 | the loop stops at the first iteration whose energy is at most 1e-24 of the initial one or at 256; the reported energy is that of the true residual; grids up to 16 x 16 always converge, and on every grid a forcing made of m modes takes at most m iterations and converges if m is at most 256; zero forcing, and only it, divides by zero |
| LinearSolver.PivotRow | numerical-plugins/reference-candidates/worker.py:72 | the first row of largest absolute value in the column |
| LinearSolver.PivotedEquivalent | numerical-plugins/reference-candidates/worker.py:76-79 | swapping and scaling rows keep the solutions of the system and of its homogeneous system |
| LinearSolver.ClearColumnEquivalent | numerical-plugins/reference-candidates/worker.py:80-87 | clearing a column keeps them too |
| LinearSolver.ReduceEquivalent | numerical-plugins/reference-candidates/worker.py:71-87 | the whole elimination, finished or stuck, keeps them and turns each treated column into a unit column |
| LinearSolver.SolutionExactAndUnique | numerical-plugins/reference-candidates/worker.py:65-99 | when elimination finishes, a vector solves the system if and only if it is the returned one |
| LinearSolver.KernelIsTrivial | numerical-plugins/reference-candidates/worker.py:71-87 | when elimination finishes, the matrix has no nonzero kernel vector |
| LinearSolver.StuckIsSingular | numerical-plugins/reference-candidates/worker.py:71-75 | with tolerance zero, a refused matrix has a nonzero kernel vector, which is constructed |
| LinearSolver.ExactToleranceDecidesSingularity | numerical-plugins/reference-candidates/worker.py:71-75 | with tolerance zero, elimination finishes if and only if the matrix is regular |
| LinearSolver.ToleranceRefuses | numerical-plugins/reference-candidates/worker.py:71-75 | elimination with a tolerance finishes if and only if the exact one does with every pivot above it, and then they are equal |
| LinearSolver.RefusedIff | numerical-plugins/reference-candidates/worker.py:71-75 | a matrix is refused if and only if it is singular or its exact elimination has a pivot within the tolerance; the report is false exactly in the second case |
| LinearSolver.RegularMatrixRefused | numerical-plugins/reference-candidates/worker.py:74-75 | such a matrix at the worker's tolerance: regular and reported singular |
| LinearSolver.DominantNext | numerical-plugins/reference-candidates/worker.py:70-87 | one step of the elimination keeps the margin by which the diagonal dominates each column |
| LinearSolver.DominantReduces | numerical-plugins/reference-candidates/worker.py:70-87 | so a dominated matrix is reduced, and no rows are exchanged |
| LinearSolver.DominantIsSolved | numerical-plugins/reference-candidates/worker.py:65-87 | no matrix whose diagonal exceeds the rest of each column by more than the tolerance is refused |
| LinearSolver.FindPivot | numerical-plugins/reference-candidates/worker.py:72 | the loop finds that pivot row |
| LinearSolver.MovePivot | numerical-plugins/reference-candidates/worker.py:76-79 | the rows after the swap and the division |
| LinearSolver.ClearRows | numerical-plugins/reference-candidates/worker.py:80-87 | clearing in place gives exactly the cleared matrix although rows are overwritten on the way |
| LinearSolver.Eliminate | numerical-plugins/reference-candidates/worker.py:70-87 | the loop over the mutable rows computes the recursive elimination, with its pivots |
| LinearSolver.ResidualNorm | numerical-plugins/reference-candidates/worker.py:89-93 | the norm bounds every residual and is attained |
| LinearSolver.PivotSpread | numerical-plugins/reference-candidates/worker.py:94 | the ratio bounds the quotient of any two pivots and is attained |
| LinearSolver.SolveLinearSystem | numerical-plugins/reference-candidates/worker.py:65-99 | a returned vector is the only solution, its residual norm is zero, and the ratio is that of the pivots; singular is reported exactly when the matrix is singular or its exact elimination has a pivot within 1e-12, and never when the diagonal dominates each column by more than that |
| LinearSolver.LinearAlgebra | numerical-plugins/reference-candidates/worker.py:56-120 | which request fails with which error, and the same result otherwise; accepted for every nonnegative tolerance |
| GradientDescent.ObjectiveAlong | numerical-plugins/reference-candidates/worker.py:164-188 | the objective along any direction, for any matrix |
| GradientDescent.SlopeOfSymmetric | numerical-plugins/reference-candidates/worker.py:164-188 | for a symmetric matrix the slope along the gradient is g.g |
| GradientDescent.StepIdentity | numerical-plugins/reference-candidates/worker.py:164-188 | for a symmetric matrix f(p - hg) = f(p) - h g.g + h^2 g.Qg / 2 |
| GradientDescent.NextGradient | numerical-plugins/reference-candidates/worker.py:184-188 | the next gradient is g - hQg |
| GradientDescent.DescendsIff | numerical-plugins/reference-candidates/worker.py:184-188 | for any matrix, a step does not ascend if and only if h g.Qg is at most twice the slope along g |
| GradientDescent.RunDescendsIff | numerical-plugins/reference-candidates/worker.py:182-188 | for a symmetric matrix the objective never rises between any two points of a run if and only if h g.Qg <= 2 g.g at every step |
| GradientDescent.FirstStep | numerical-plugins/reference-candidates/worker.py:182-188 | a run starts at the origin, where the objective is zero, and its first point is -h times the linear term |
| GradientDescent.AsymmetricMatrixCanAscend | numerical-plugins/reference-candidates/worker.py:174-188 | without symmetry, which is not asked for, that condition can hold and the objective rise |
| GradientDescent.Optimization | numerical-plugins/reference-candidates/worker.py:173-215 | exactly which request fails with which error, the point after the asked number of steps, its objective and gradient, and acceptance |
| Sha256Spec.ZeroCount | paper-core/deploy/autonomous-submission-handoff-layout-provision.c:168-170 | the least number of zero bytes that fills the block up to the length field |
| Sha256Spec.HashBlocksAppend | paper-core/deploy/autonomous-submission-handoff-layout-provision.c:147-162 | hashing one block more is compressing it into the hash so far |
| Sha256.HalvesRotate | paper-core/deploy/autonomous-submission-handoff-layout-provision.c:66-68 | the two shifts form the rotation at every count in use |
| Sha256.ScheduleStep | paper-core/deploy/autonomous-submission-handoff-layout-provision.c:97-102 | the schedule's recurrence, in terms of the program's sigma functions |
| Sha256.ExpandSchedule | paper-core/deploy/autonomous-submission-handoff-layout-provision.c:90-103 | the two loops compute the message schedule of section 6.2.2 of FIPS 180-4 |
| Sha256.RotationsAgree | paper-core/deploy/autonomous-submission-handoff-layout-provision.c:100-116 | the program's four functions are those of section 4.1.2 of FIPS 180-4 |
| Sha256.Context.constructor | paper-core/deploy/autonomous-submission-handoff-layout-provision.c:138-145 | the initial value of section 5.3.3 of FIPS 180-4 and an empty buffer |
| Sha256.Context.Transform | paper-core/deploy/autonomous-submission-handoff-layout-provision.c:70-136 | the state becomes the compression of the old state with the block |
| Sha256.Context.Update | paper-core/deploy/autonomous-submission-handoff-layout-provision.c:147-162 | the buffered state represents the old message followed by the new bytes, whatever the lengths |
| Sha256.Context.Append | paper-core/deploy/autonomous-submission-handoff-layout-provision.c:151-160 | one copy into the block, compressed when it is full, appends its bytes to the represented message |
| Sha256.BlockGrows | paper-core/deploy/autonomous-submission-handoff-layout-provision.c:151-160 | the hash state and buffer of the longer message, whether or not the chunk fills the block |
| Sha256.Context.AppendPadding | paper-core/deploy/autonomous-submission-handoff-layout-provision.c:164-171 | the marker and the zero loop, which terminates, append the padding of section 5.1.1 of FIPS 180-4 |
| Sha256.Context.Finalize | paper-core/deploy/autonomous-submission-handoff-layout-provision.c:164-182 | the digest is SHA-256 of everything appended, below 2^64 bits |
| Sha256.EncodeLength | paper-core/deploy/autonomous-submission-handoff-layout-provision.c:171-174 | the length as eight big-endian bytes |
| Sha256.EncodeState | paper-core/deploy/autonomous-submission-handoff-layout-provision.c:176-182 | the state as big-endian bytes |
| Sha256.HashDescriptor | paper-core/deploy/autonomous-submission-handoff-layout-provision.c:184-204 | however a file's bytes arrive, the text is the hexadecimal SHA-256 of their concatenation |
| Sha256Meaning.ChoiceByBits | paper-core/deploy/autonomous-submission-handoff-layout-provision.c:114 | the choice takes the second word where the first has ones and the third elsewhere |
| Sha256Meaning.MajorityByBits | paper-core/deploy/autonomous-submission-handoff-layout-provision.c:117 | a bit of the majority is one where two of three are |
| Sha256Meaning.ParityByBits | paper-core/deploy/autonomous-submission-handoff-layout-provision.c:100-117 | a bit of a triple sum is one where an odd number of the three are |
| Sha256Meaning.AddZero | paper-core/deploy/autonomous-submission-handoff-layout-provision.c:115-135 | adding zero changes nothing |
| Sha256Meaning.AddNext | paper-core/deploy/autonomous-submission-handoff-layout-provision.c:115-135 | addition counts up from its first summand |
| Sha256Meaning.WordOfBytes | paper-core/deploy/autonomous-submission-handoff-layout-provision.c:91-96 | four bytes make a word whose bytes they are, the first the most significant |
| Sha256Meaning.BytesOfWord | paper-core/deploy/autonomous-submission-handoff-layout-provision.c:176-181 | the four bytes of a word make it again |
| Sha256Meaning.LengthDigits | paper-core/deploy/autonomous-submission-handoff-layout-provision.c:171-174 | the length field consists of the digits to the base 256 that write the length |
| Sha256Meaning.HexReadsBack | paper-core/deploy/autonomous-submission-handoff-layout-provision.c:198-202 | two digits of the text read back as each byte, in order |
| Sha256Meaning.PrimesAreAll | paper-core/deploy/autonomous-submission-handoff-layout-provision.c:72-89 | the sixty-four numbers whose roots are taken are all the primes below 312 |
| Sha256Meaning.PrimesIncrease | paper-core/deploy/autonomous-submission-handoff-layout-provision.c:72-89 | they are listed in order |
| Sha256Meaning.ConstantsAreCubeRoots | paper-core/deploy/autonomous-submission-handoff-layout-provision.c:72-89 | constant i is the first 32 bits of the fractional part of the cube root of the i-th prime |
| Sha256Meaning.InitialValueIsSquareRoots | paper-core/deploy/autonomous-submission-handoff-layout-provision.c:138-145 | the initial state is that of the square roots of the first eight primes |
| ReceiptFormat.DecimalPrinted | paper-core/deploy/autonomous-submission-handoff-layout-provision.c:887-904 | a printed 64-bit number is read back, up to the first nondigit |
| ReceiptFormat.DecimalParsed | paper-core/deploy/autonomous-submission-handoff-layout-provision.c:887-904 | an accepted number is exactly what printing its value gives: no leading zero, no overflow |
| ReceiptFormat.ModePrinted | paper-core/deploy/autonomous-submission-handoff-layout-provision.c:922-938 | four octal digits are read back |
| ReceiptFormat.ModeParsed | paper-core/deploy/autonomous-submission-handoff-layout-provision.c:922-938 | an accepted mode is what printing it gives |
| ReceiptFormat.HashPrinted | paper-core/deploy/autonomous-submission-handoff-layout-provision.c:906-920 | sixty-four hash digits are read back |
| ReceiptFormat.HashParsed | paper-core/deploy/autonomous-submission-handoff-layout-provision.c:906-920 | an accepted hash is sixty-four digits of the input |
| ReceiptRoundTrip.EntryPrinted | paper-core/deploy/autonomous-submission-handoff-layout-provision.c:940-955 | a printed entry is read back whole |
| ReceiptRoundTrip.EntryParsed | paper-core/deploy/autonomous-submission-handoff-layout-provision.c:940-955 | an accepted entry is exactly its own print |
| ReceiptRoundTrip.JoinedChain | paper-core/deploy/autonomous-submission-handoff-layout-provision.c:765-775 | the printer's comma-first loop and the parser's comma-last entries are the same text |
| ReceiptRoundTrip.ParseOfPrint | paper-core/deploy/autonomous-submission-handoff-layout-provision.c:742-791 | parsing a serialized receipt returns its hash and six entries |
| ReceiptRoundTrip.PrintOfParse | paper-core/deploy/autonomous-submission-handoff-layout-provision.c:1024-1054 | any text accepted in full is the serialization of what was parsed |
| ReceiptRoundTrip.AcceptedIffPrinted | paper-core/deploy/autonomous-submission-handoff-layout-provision.c:1024-1054 | the parser accepts a text as a receipt if and only if the receipt is valid and prints to that text |
| ReceiptRoundTrip.TextLength | paper-core/deploy/autonomous-submission-handoff-layout-provision.c:777-790 | for all 64-bit metadata the receipt has fewer than 1800 bytes |
| ReceiptCode.PrintEntry | paper-core/deploy/autonomous-submission-handoff-layout-provision.c:729-740 | the entry is written after what the buffer holds, exactly when it and a terminator fit |
| ReceiptCode.ReadDigits | paper-core/deploy/autonomous-submission-handoff-layout-provision.c:894 | the library conversion: the leading digits and their value |
| ReceiptCode.SerializeReceipt | paper-core/deploy/autonomous-submission-handoff-layout-provision.c:742-791 | both buffers always suffice, so no capacity failure is reachable, and the text is the receipt's |
| ReceiptCode.Reader.Literal | paper-core/deploy/autonomous-submission-handoff-layout-provision.c:877-885 | the cursor code refines the parsing function |
| ReceiptCode.Reader.Decimal | paper-core/deploy/autonomous-submission-handoff-layout-provision.c:887-904 | the cursor code refines the parsing function, overflow and leading zeros included |
| ReceiptCode.Reader.Hash | paper-core/deploy/autonomous-submission-handoff-layout-provision.c:906-920 | the cursor code refines the parsing function |
| ReceiptCode.Reader.Mode | paper-core/deploy/autonomous-submission-handoff-layout-provision.c:922-938 | the cursor code refines the parsing function |
| ReceiptCode.Reader.Entry | paper-core/deploy/autonomous-submission-handoff-layout-provision.c:940-955 | the cursor code refines the parsing function |
| ReceiptCode.Reader.Entries | paper-core/deploy/autonomous-submission-handoff-layout-provision.c:1040-1049 | the six entries in order refine the parsing function |
| ReceiptCode.Reader.Body | paper-core/deploy/autonomous-submission-handoff-layout-provision.c:1024-1050 | the cursor code refines the parsing function |
| ReceiptCode.ReadReceipt | paper-core/deploy/autonomous-submission-handoff-layout-provision.c:1024-1054 | reading succeeds exactly on the accepted texts, and the text is the print of the result |
| Json.ReadOfPrint | paper-core/deploy/autonomous-submission-handoff-layout-provision.c:729-791 | reading a printed object, text, number or flag gives it back and leaves the rest |
| ReceiptMeaning.TextIsPrint | paper-core/deploy/autonomous-submission-handoff-layout-provision.c:729-791 | the receipt is the print of a JSON object, and a line end |
| ReceiptMeaning.ReceiptReads | paper-core/deploy/autonomous-submission-handoff-layout-provision.c:729-791 | a reader of JSON finds in every valid receipt the version, kind, status and flags, the hash twice, and under each of the six names, written out, the device, inode, uid, gid and mode of that entry |
| Provisioning.FreeAttempt | paper-core/deploy/autonomous-submission-handoff-layout-provision.c:818-833 | the first free temporary name of the process among 128: every earlier one is taken |
| Provisioning.Exec | paper-core/deploy/autonomous-submission-handoff-layout-provision.c:1142-1277 | no list of steps, complete or failing, changes the database's bytes or the receipt directory |
| ProvisioningTheorems.StepEntries | paper-core/deploy/autonomous-submission-handoff-layout-provision.c:618-652 | a step rewrites at most one entry, keeps its identity, and sets only target owners, groups and modes or makes a missing directory |
| ProvisioningTheorems.StepKeepsSafe | paper-core/deploy/autonomous-submission-handoff-layout-provision.c:618-662 | every single step keeps the owner preconditions and the identity of every entry |
| ProvisioningTheorems.ExecKeepsSafe | paper-core/deploy/autonomous-submission-handoff-layout-provision.c:618-662 | any steps in any order keep every owner precondition of a fresh run and the identity of every entry |
| ProvisioningTheorems.OpeningRuns | paper-core/deploy/autonomous-submission-handoff-layout-provision.c:1172-1213 | opening succeeds exactly when the preconditions hold and changes nothing but the directories it makes |
| ProvisioningTheorems.ConvergeRuns | paper-core/deploy/autonomous-submission-handoff-layout-provision.c:636-652 | convergence of any list of opened entries succeeds and settles exactly those |
| ProvisioningTheorems.RechecksRun | paper-core/deploy/autonomous-submission-handoff-layout-provision.c:664-674 | rechecking succeeds exactly when every name still leads to the device and inode that were opened, of its kind and with one link if a file; it changes nothing |
| ProvisioningTheorems.PublishingRuns | paper-core/deploy/autonomous-submission-handoff-layout-provision.c:793-849 | however the writes are split, publishing leaves the whole receipt in a free temporary, or fails for want of a name |
| ProvisioningRuns.RunCompletesIff | paper-core/deploy/autonomous-submission-handoff-layout-provision.c:1172-1277 | a run completes if and only if the layout is ready, and its outcome does not depend on how writes were split |
| ProvisioningRuns.VerifyAfterRun | paper-core/deploy/autonomous-submission-handoff-layout-provision.c:1215-1277 | verify-only accepts the outcome of every completed run |
| ProvisioningRuns.RunAgainChangesNothing | paper-core/deploy/autonomous-submission-handoff-layout-provision.c:1172-1277 | provisioning again, by any process with the same identities, completes and leaves the identical layout |
| ProvisioningRuns.VerifyOnlyIff | paper-core/deploy/autonomous-submission-handoff-layout-provision.c:971-1091 | verify-only accepts exactly the layouts at target whose receipt is the print of their metadata with some hash |
| ProvisioningRuns.StoppedIsSafe | paper-core/deploy/autonomous-submission-handoff-layout-provision.c:618-662 | wherever a run stops, the next run's owner preconditions hold, and the temporaries of other processes are the same files |
| ProvisioningRuns.RestartCompletesIff | paper-core/deploy/autonomous-submission-handoff-layout-provision.c:793-866 | after a stop anywhere a fresh run completes if and only if it finds a free temporary name; a new process id that had one still has it |
| ProvisioningRuns.RestartReachesTarget | paper-core/deploy/autonomous-submission-handoff-layout-provision.c:1172-1277 | it reaches target metadata, the very nodes the uninterrupted run gives to entries that existed, and verify-only accepts |
| ProvisioningRuns.AttemptsAreSafe | paper-core/deploy/autonomous-submission-handoff-layout-provision.c:618-662 | after any list of runs of any processes, each stopped anywhere, the owner preconditions hold, the database and the identities of all entries are unchanged |
| ProvisioningRuns.RestartAfterAttempts | paper-core/deploy/autonomous-submission-handoff-layout-provision.c:1172-1277 | a fresh run after them completes if and only if it finds a free temporary name, and then reaches the nodes of the uninterrupted run, accepted by verify-only |
| ProvisioningRuns.ReceiptIsAtomic | paper-core/deploy/autonomous-submission-handoff-layout-provision.c:850-862 | at every stop the published receipt is the old one or the complete new one |
| Permissions.ModeMeans | paper-core/deploy/autonomous-submission-handoff-layout-provision.c:1215-1241 | metadata is at target exactly when the entry has its owner and, against every user: others have no access, the group only searches the two upper directories, writes the handoff root and the database alone and lists the two dispatcher directories, the owner has all; setgid is on the three handoff directories, sticky on the handoff root, setuid nowhere |
| Permissions.OutsidersHaveNothing | paper-core/deploy/autonomous-submission-handoff-layout-provision.c:1215-1241 | a user outside the group has no right to an entry it does not own |
| Permissions.WritersAre | paper-core/deploy/autonomous-submission-handoff-layout-provision.c:1172-1241 | over the whole path: only the supervisor writes the upper directories and the challenges, only the dispatcher the cycles, and exactly who gets inside writes the handoff root and the database |
| Permissions.RemoversAre | paper-core/deploy/autonomous-submission-handoff-layout-provision.c:1228-1241 | only its owner and root remove or rename an entry of the handoff directory |
| ProvisionedLayout.RunSecures | paper-core/deploy/autonomous-submission-handoff-layout-provision.c:1172-1277 | after a completed run the kinds, owners and rights of every user are those, the receipt is readable by root and the supervisor's group alone and writable by nobody, only root can replace it, and entries that existed are the same files |
| ProvisionedLayout.RestartSecures | paper-core/deploy/autonomous-submission-handoff-layout-provision.c:1172-1277 | the same after a run that follows any list of interrupted ones |
| ProvisionedLayout.VerifiedIsSecured | paper-core/deploy/autonomous-submission-handoff-layout-provision.c:1215-1227 | verify-only accepts no other layout |
| ProvisionedLayout.AllowedOwnersAreLeft | paper-core/deploy/autonomous-submission-handoff-layout-provision.c:1172-1213 | the owners a run may start from are exactly those that a first run, stopped somewhere, can leave |
| LeftTemporaries.StoppedLeavesPrivate | paper-core/deploy/autonomous-submission-handoff-layout-provision.c:816-862 | wherever a run stops, the temporaries that were there are the same files, and at most one is new, which nobody but root can write and nobody but root and the supervisor's group can read |
| LeftTemporaries.AttemptsLeavePrivate | paper-core/deploy/autonomous-submission-handoff-layout-provision.c:816-862 | so for all that any list of interrupted runs leaves |
| ProvisionedLayout.RunReceiptReads | paper-core/deploy/autonomous-submission-handoff-layout-provision.c:742-791 | a reader of JSON finds in a completed run's receipt the metadata the six entries have, each under its own name, and the hexadecimal SHA-256 of the database's bytes |
| ProvisionedLayout.VerifiedReceiptReads | paper-core/deploy/autonomous-submission-handoff-layout-provision.c:971-1091 | verify-only accepts only receipts that describe the entries as they are |
| ArtifactPaths.AllowedShape | migration/capability-operational-evidence.mjs:136-148 | an allowed text is ".", "./", ".." or a list of proper segments, up to a final slash |
| ArtifactPaths.AcceptedIsBelow | migration/capability-operational-evidence.mjs:104-148 | an accepted path has its staging path strictly below the staging root and its final path strictly below the proof root; the scope check stops the dots |
| ArtifactPaths.SameFile | migration/capability-operational-evidence.mjs:136-148 | two accepted texts name the same file only if they differ by a final slash |
| ArtifactPaths.ProperIsAccepted | migration/capability-operational-evidence.mjs:136-148 | every path of proper segments without a backslash and outside the quarantine is accepted, as itself |
| ArtifactPublisher.SelectionIsPermutation | migration/capability-operational-evidence.mjs:414-420 | publication proceeds only on a permutation of exactly the staged set |
| ArtifactPublisher.SurvivesDiscardIff | migration/capability-operational-evidence.mjs:235-283 | a published artifact survives the discard if and only if its path is outside the staging root; other names outside it are as before |
| ArtifactPublisher.ArtifactLostToDiscard | migration/capability-operational-evidence.mjs:136-148 | for every publication id a path into the staging root is accepted, and after publication and discard the artifact is not there |
| PublicationWorld.DisturbIsBetween | migration/capability-operational-evidence.mjs:317-348 | whatever another process does outside the staging root, every binding it made and did not itself remove stays bound or is no different from before, and every name it changed is marked |
| PublicationWorld.BetweenKeepsRespect | migration/capability-operational-evidence.mjs:317-348 | such an act leaves every binding of others standing or its file waiting in the quarantine |
| PublicationWorld.LinkKeepsRespect | migration/capability-operational-evidence.mjs:449 | so does linking an artifact at a free name |
| PublicationWorld.MoveKeepsRespect | migration/capability-operational-evidence.mjs:323 | so does the rename into the quarantine, since a foreign file found there is noted as waiting |
| PublicationWorld.RelinkKeepsRespect | migration/capability-operational-evidence.mjs:337 | so does linking a waiting file back |
| PublicationWorld.UnlinkKeepsRespect | migration/capability-operational-evidence.mjs:332-345 | so does removing a quarantine name no file waits at |
| PublicationWorld.DiscardKeepsOthers | migration/capability-operational-evidence.mjs:235-283 | deleting the staging directory leaves every binding of others standing but those whose file was waiting there |
| PublicationWorld.ForeignFileLostToDiscard | migration/capability-operational-evidence.mjs:235-283 | such a loss happens: a file another process made and never removed, moved by rollback and kept from its name, has no name after the discard |
| ArtifactPublisher.Publisher.LostToDiscardIff | migration/capability-operational-evidence.mjs:235-283 | closing the publisher loses a file of another process that leaves its name alone if and only if the file was waiting in the quarantine and not bound at its path |
| ArtifactPublisher.Publisher.StageJson | migration/capability-operational-evidence.mjs:350-407 | which error each refused path gives, a file standing where a directory is needed included; a staged artifact, for which no call failed, has its bytes, mode and hash at a new name, and no final path lies at or below another; every other name is left alone; whatever others do, without failing calls it succeeds exactly on an accepted, unstaged path that can hold a file |
| ArtifactPublisher.Publisher.Precheck | migration/capability-operational-evidence.mjs:421-434 | a passed check means every final name was free, unless another process changed it since the call began, and, where others left the paths at, above and below it alone, that it is no directory and needs none where a file stands; if no call fails and others leave those paths alone it passes exactly then |
| ArtifactPublisher.Publisher.CheckContent | migration/capability-operational-evidence.mjs:285-315 | a passed check means no call failed and the name leads to the staged inode with its bytes; it passes if the name led there, others left it alone and no call fails |
| ArtifactPublisher.Publisher.LinkAll | migration/capability-operational-evidence.mjs:438-459 | with others acting: exactly the first artifacts are linked, at names free at the time, and every other name is left alone; all are if no call fails and others leave the final paths alone |
| ArtifactPublisher.Publisher.LinkOne | migration/capability-operational-evidence.mjs:439-458 | with others acting: the final name was free when it was linked and has led to the artifact since, unless another process changed it; otherwise no name was touched; it succeeds if no call fails and others leave the paths at, above and below a free name alone |
| ArtifactPublisher.Publisher.ConfirmAll | migration/capability-operational-evidence.mjs:460-464 | when it passes, every final name has led to its artifact since the call began, unless another process changed it |
| ArtifactPublisher.Publisher.Rollback | migration/capability-operational-evidence.mjs:317-348 | with others acting: when done, the artifact is at its final name only if another process bound it there, the name is free or was changed by another process after it was linked, and nothing new waits; when not done, only a new quarantine name may appear; if no call fails, it is not done only if another process changed the name meanwhile |
| ArtifactPublisher.Publisher.TakeAway | migration/capability-operational-evidence.mjs:318-323 | the name is moved to an unused quarantine name, and a file there that is not the artifact is noted as waiting |
| ArtifactPublisher.Publisher.FinishOwn | migration/capability-operational-evidence.mjs:330-334 | the quarantine name is gone when done, and every other name is left alone |
| ArtifactPublisher.Publisher.RestoreForeign | migration/capability-operational-evidence.mjs:336-347 | when done the file waits no longer and its quarantine name is gone; only its own path and that name are touched; if no call fails it is done unless the path is taken or another process changes it |
| ArtifactPublisher.Publisher.RollbackAll | migration/capability-operational-evidence.mjs:465-482 | with others acting: every linked artifact not reported is gone from its final name, and nothing else is touched but the quarantine of an incomplete rollback; if no call fails, only names that another process changed during the rollback are reported |
| ArtifactPublisher.Publisher.TryPublish | migration/capability-operational-evidence.mjs:436-464 | success means that no call failed, neither callback threw, the first saw no artifact and the second all of them at their names, all are linked and were seen in place after it; a failure leaves exactly a prefix linked; both with others acting |
| ArtifactPublisher.Publisher.PublishSelected | migration/capability-operational-evidence.mjs:435-488 | the links, the rollback of a failure and the closing discard together: all or none, none lost, none overwritten, nothing else touched, no failed call unreported, and the limits on each outcome that publication promises |
| ArtifactPublisher.Publisher.Discard | migration/capability-operational-evidence.mjs:235-283 | with others acting: it succeeds if and only if no call fails; no name is left under the staging root once it is moved away, every other name is left alone, and only files waiting there are lost, so none if no rollback was incomplete |
| ArtifactPublisher.Publisher.Publish | migration/capability-operational-evidence.mjs:409-496 | for every interleaving and failure: (0) publication is reported only if no call failed and neither callback threw, the first callback having seen no artifact and the second all of them, and a failed cleanup after publication only if the last call alone failed; a refused selection runs no callback; (1) on success every artifact, with its bytes, was at its final name after the last callback, unless another process changed it; on rollback none is at its final name unless another process bound it there; (2) every binding other processes made before or during the call and did not remove stands, or its file is in the quarantine with the rollback reported incomplete; all stand if no rollback was incomplete, in this call or before; (3) a name bound before is bound so still unless another process changed it; (4) no other name is touched; (5) where others leave the final paths alone, one failure anywhere is always rolled back: an incomplete rollback takes two; (6) if no call fails, only names another process changed are reported as not rolled back, the staging directory is removed, and, where others leave the final paths alone, it publishes if and only if every final name is neither bound nor a directory nor below a file; undisturbed it gives the names exactly |
| Shuffle.DeterministicPermutation | paper-adapters/research-verify/deep-learning-training-worker/canonical_cupy_mlp_trainer.py:463-471 | the in-place loop gives a permutation of 0..count-1 for every digest, the one its choices determine |
| Shuffle.Exchange | paper-adapters/research-verify/deep-learning-training-worker/canonical_cupy_mlp_trainer.py:469-470 | exchanging two elements in place |
| Shuffle.ShuffleInjective | paper-adapters/research-verify/deep-learning-training-worker/canonical_cupy_mlp_trainer.py:463-471 | different choices give different orders |
| Shuffle.ShuffleReaches | paper-adapters/research-verify/deep-learning-training-worker/canonical_cupy_mlp_trainer.py:463-471 | every reordering is reached by some choices |
| Shuffle.EachPermutationOnce | paper-adapters/research-verify/deep-learning-training-worker/canonical_cupy_mlp_trainer.py:463-471 | each permutation comes from exactly one list of choices |
| Shuffle.PermutationVisits | paper-adapters/research-verify/deep-learning-training-worker/canonical_cupy_mlp_trainer.py:463-471 | a permutation visits each index exactly once |
| TrainingSchedule.Batches | paper-adapters/research-verify/deep-learning-training-worker/canonical_cupy_mlp_trainer.py:532-533 | batch i is the slice of the permutation from i * size to the next multiple or the end; they number the quotient rounded up |
| TrainingSchedule.RunEpochs | paper-adapters/research-verify/deep-learning-training-worker/canonical_cupy_mlp_trainer.py:530-554 | epoch e trains, in slices of the batch size, on the order that the draws of epoch e + 1 shuffle the identity into, so every sample once; the steps are counted; a negative size trains on nothing |
| TrainingSchedule.Train | paper-adapters/research-verify/deep-learning-training-worker/canonical_cupy_mlp_trainer.py:519-565 | every epoch trains on its own shuffled order in slices; for a positive batch size the step count is ceil(n / batch) * epochs within the budget of 1000000; exactly when the budget is exceeded and when the division by zero happens |
| NumberStream.FillUniforms | paper-adapters/research-verify/deep-learning-training-worker/canonical_cupy_mlp_trainer.py:425-438 | the nested loops terminate; value i times 2^32, less a half, is word i mod 8 of digest i div 8, and value i is strictly inside (0,1) |
| NumberStream.DeterministicNormals | paper-adapters/research-verify/deep-learning-training-worker/canonical_cupy_mlp_trainer.py:425-444 | the result is the stream of transformed pairs, cut to the count |
| NumberStream.StreamIsPrefix | paper-adapters/research-verify/deep-learning-training-worker/canonical_cupy_mlp_trainer.py:425-444 | the result for a count is a prefix of that for any larger count, despite the even padding |
| TensorBundle.ValidateModel | paper-adapters/research-verify/deep-learning-training-worker/canonical_cupy_mlp_trainer.py:146-195 | the loop accepts exactly the models whose layers chain, whose activations and widths are as required and whose parameter count is right and in range |
| TensorBundle.NamesPresent | paper-adapters/research-verify/deep-learning-training-worker/canonical_cupy_mlp_trainer.py:447-460 | a layer's two names exist exactly when an earlier layer has its id |
| TensorBundle.SumOfSizes | paper-adapters/research-verify/deep-learning-training-worker/canonical_cupy_mlp_trainer.py:447-460 | the named tensors hold at most as many elements as the layers count, and as many exactly when no id repeats |
| TensorBundle.OrderIsLexicographic | paper-adapters/research-verify/deep-learning-training-worker/canonical_cupy_mlp_trainer.py:639-657 | names are ordered by their first difference, a prefix first |
| TensorBundle.Bundle | paper-adapters/research-verify/deep-learning-training-worker/canonical_cupy_mlp_trainer.py:639-657 | the descriptors list every name once in order, and cutting the bundle at their prefix sums gives back each tensor |
| TensorBundle.BundleSizeIff | paper-adapters/research-verify/deep-learning-training-worker/canonical_cupy_mlp_trainer.py:175-195 | a validated model's bundle has 4 * parameterCount bytes if and only if the layer ids are distinct |
| TensorBundle.RepeatedIdLosesBytes | paper-adapters/research-verify/deep-learning-training-worker/canonical_cupy_mlp_trainer.py:175-195 | a validated model whose bundle never has that size |
| MemoryPlan.PeakGrows | paper-adapters/research-verify/deep-learning-training-worker/canonical_cupy_mlp_trainer.py:277-317 | the estimated peak never falls as samples, features, layer widths or batch size grow |
| MemoryPlan.CostIs | paper-adapters/research-verify/deep-learning-training-worker/canonical_cupy_mlp_trainer.py:277-317 | the subtotal in bytes: per sample its features, label and index, forty-eight per parameter, the larger of a full evaluation and a training batch, and 512 MiB |
| MemoryPlan.OneMoreSample | paper-adapters/research-verify/deep-learning-training-worker/canonical_cupy_mlp_trainer.py:277-317 | what one more sample adds, while evaluation dominates and while all samples fit in a batch |
| MemoryPlan.ParameterStateIsTwelveBundles | paper-adapters/research-verify/deep-learning-training-worker/canonical_cupy_mlp_trainer.py:285-289 | the parameter state is twelve times the bundle's bytes if and only if no layer id repeats |
| MemoryPlan.AcceptedIff | paper-adapters/research-verify/deep-learning-training-worker/canonical_cupy_mlp_trainer.py:354-416 | acceptance is exactly three linear bounds on the subtotal, rounding included; an accepted plan leaves 1 GiB of total and 512 MiB of free memory beyond the peak |

## Left out

- Floating-point rounding, overflow to infinity, and square root, logarithm, sine and cosine: real arithmetic is exact, norms are compared squared, and the Box-Muller transform is an arbitrary function.
- PoissonSolver.Solve: the manufactured forcing is an arbitrary field; that sampled sines satisfy their three-term recurrence is not shown, and with it products of sines are modes; the relative error against the manufactured solution is not modelled, and zero forcing appears as the division by zero that ends the call.
- GradientDescent.Optimization: the divergence error for nonfinite points does not occur over the reals.
- Sha256.Context.Finalize: beyond 2^64 bits the digest is unconstrained, as the standard leaves it.
- User, group and shadow database checks: the identities are given.
- Real system calls, descriptors and fsync: each is one atomic step; the receipt path and the leaf-name length check are not modelled.
- Provisioning is modelled on values, a step function over an explicit layout, so that a stop after any call is a prefix of the program; aliasing between descriptors and names is not captured. No other process acts during a run. The sizes compared after convergence are covered by the bytes being unchanged.
- Provisioning: the temporary is not removed when its metadata is found wrong, which does not happen without interference; a temporary left by a stop is never removed, as in the program, hence the condition on a free name.
- ProvisioningRuns.VerifyOnlyIff: says nothing about the database's bytes, because a verify-only run does not read them.
- Json.ReadOfPrint: arrays, null, signed and fractional numbers and escapes in texts do not occur in a receipt and are not read.
- Permissions.ModeMeans: the rules are those for users without privileges; access control lists and mount options are not modelled.
- ReceiptCode.PrintEntry: the mode is already masked to its twelve permission bits.
- Publisher directories and symbolic links: only file bindings are modelled, and as directories those of the staging root and those that hold a file; that a directory another process puts at a final name is moved by rollback with what it holds, empty directories, symbolic links, the directory identity checks and the creation of directories are not modelled beyond calls that may fail.
- ArtifactPublisher.SelectionIsPermutation: requested paths are texts; the program tests uniqueness on the values given and turns them into texts afterwards, so a text and a number of the same spelling pass together.
- ArtifactPublisher.Publisher.StageJson: JSON serialization is left out, the content is given, and the inode of the new file is assumed unused.
- ArtifactPublisher.Publisher.Publish: the bytes of foreign files are not tracked, only their inodes; staged inodes are assumed not written by others, and the staging directory not touched by them; a random quarantine name is assumed to be none in use; the two callbacks are calls that may fail and see the names as they are.
- ArtifactPublisher.Publisher.Discard: when removal fails after the staging directory has been moved away, its names count as gone.
- TrainingSchedule.Train: parameters, gradients and the optimizer are not modelled; the batch size and the number of epochs are taken unchecked, as the worker takes them.
- TensorBundle.ValidateModel: the fields that must equal fixed texts or flags (version, kind, family, task, operator list, training contract) and the type checks are not modelled.
- MemoryPlan.AcceptedIff: the textual fields and hashes of a plan are not modelled, and the input feature count is nonnegative, which the dataset check ensures.
- Monte Carlo sampling, AdamW, GPU queries, evidence validation, ports, retirement tables and legacy matrices.
