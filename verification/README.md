# Inverse-iteration eigen-solver and affine image fit, in Dafny

This project models two pieces of the `num-analysis` Go repository and proves properties of them. In both pieces `float64` is modelled as exact `real`.

**The eigen-solver.** `linalg/eigen/inverse_iteration.go` finds the eigenpairs of a square matrix one at a time. Each search has two phases:

- an inverse-iteration phase that repeatedly solves with the shifted matrix m - val I;
- a power-iteration phase that repeatedly multiplies by m.

Both phases charge one shared step budget. Every new iterate goes through the same pipeline:

1. normalise by the largest absolute entry;
2. deflate against the eigenvectors already found;
3. normalise again;
4. take the Rayleigh quotient (`scaleFactor`).

A convergence criterion is chosen from the settings and decides when a phase stops.

**The image-alignment fit.** `imagealign/src/transformation.go` fits an affine map (x, y) -> (a x + b y + tx, c x + d y + ty) to point correspondences. It builds the six columns of a 2n-row least-squares design matrix, the 6x6 normal matrix and the right-hand side. It hands the result to a Cholesky solve and unpacks the 6-vector solution into a `Transformation`.

Files:

- `vectors.dfy` (`Vectors`): vectors as `seq<real>`, row-major matrices, dot products and their linearity lemmas. These stand in for the `linalg` package, which is not part of this model.
- `wrappers.dfy` (`Wrappers`): `Option`.
- `eigen_helpers.dfy` (`EigenHelpers`):
  - `shiftedMatrix`, `normalizeMaxElement`, `deleteProjections` and `scaleFactor`;
  - the squared `backError`;
  - the refinement step both phase loops apply.
- `inverse_iteration.dfy` (`InverseIteration`):
  - the criterion choice;
  - the phase loops with their budget accounting;
  - `findNextVector`;
  - the driver and the entry points `InverseIteration`, `InverseIterationPrec` and `InverseIterationTime`.
- `image_align.dfy` (`ImageAlign`):
  - `Transformation.Apply` and `sourceColumnEquations`;
  - the normal-matrix and right-hand-side assembly, and unpacking the solution;
  - the fit as a whole, with the solver as a parameter.

The numeric core of one phase step is an `Oracle` parameter of the driver. It covers the LU decomposition and solve, the singularity test on the pivot scale, and the criterion's `Step`/`Converging`/`Best`. The oracle maps a criterion, a phase input and a step index to "continue" or "stop with this estimate". The loops' use of the budget is modelled exactly, and so is the driver's use of the phases' answers. `EigenHelpers.Refine` and `EigenHelpers.PowerStep` model the exact part of a step.

The time-boxed entry point always returns one pair per row. Its loop at `linalg/eigen/inverse_iteration.go:75-77` calls `findNextVector` `m.Rows` times and ignores the error. In time mode both phase loops run while `remainingIterations > 0 || useTime` (`:123`, `:153`), so a phase can only end by stopping, and no search fails. `InverseIterationTime` therefore makes `m.Rows` searches that all succeed. The model assumes that the time criterion eventually stops every phase, and proves that exactly one pair per row comes back.

The bounded entry points also return a ghost record `steps` that Go does not have: for each pair found, the steps at which its two phases first stopped. It lets the contracts say how the one budget is shared. The pairs found used at most `maxIters` steps between them. An `ErrMaxSteps` result means that no search for the next pair fits into what the earlier searches left over.

## Model

| member | source | states |
|---|---|---|
| InverseIteration.ConvergenceCriteria | linalg/eigen/inverse_iteration.go:210-218 | A non-zero back-error threshold selects the back-error criterion even in time mode. Otherwise time mode selects the time criterion, and the oscillation criterion is used only when neither applies. Each is built from the matching setting. |
| InverseIteration.CriteriaIgnoresUnusedSettings | linalg/eigen/inverse_iteration.go:210-218 | Two settings select the same criterion exactly when they agree on the threshold and, when the threshold is 0, on the time flag and, in time mode, on the slice. |
| InverseIteration.TruncDiv | linalg/eigen/inverse_iteration.go:72 | Go's integer quotient truncates toward zero: for a non-negative dividend it is the largest q with q*b <= a, and for a negative one the smallest q with a <= q*b. |
| InverseIteration.TruncDivOdd | linalg/eigen/inverse_iteration.go:72 | Truncating division commutes with negating the dividend. |
| InverseIteration.TimeSlice | linalg/eigen/inverse_iteration.go:72 | The slice is t / (2*Rows) truncated toward zero. For t >= 0 it is the largest slice whose 2*Rows copies fit into t. For t < 0 it is the smallest slice whose 2*Rows copies are at or above t, so it is negative or zero. |
| InverseIteration.PhaseLoop | linalg/eigen/inverse_iteration.go:123-167 | Each step costs exactly one unit of the shared budget. On success the phase returns the estimate of the first step at which it stops. It fails only when it is not in time mode and it has spent exactly the positive part of the budget with every step continuing. Outside time mode it never takes more steps than the budget allows. |
| InverseIteration.PhaseFailsIffBudgetExhausted | linalg/eigen/inverse_iteration.go:123-124 | A phase that first stops at step k reaches a stop within the budget exactly when k is below the budget's positive part. |
| InverseIteration.StopsFirstAtUnique | linalg/eigen/inverse_iteration.go:141-143 | The first step at which a phase stops is unique, so a phase's answer is well defined. |
| InverseIteration.FindNextVector | linalg/eigen/inverse_iteration.go:96-109 | On success it appends exactly one value and one vector, keeping the earlier ones. The new pair is the power phase's answer, started from the inverse phase's answer. On failure both lists are unchanged, the mode is bounded and the budget is spent, and no search from the current pairs fits into the budget: every pair of first stopping steps i, j needs i + j + 2 steps, more than the budget held. The budget falls by the total number of phase steps. |
| InverseIteration.Solve | linalg/eigen/inverse_iteration.go:47-54 | It returns parallel lists of at most Rows pairs. The error is absent exactly when Rows pairs were found. Pair s is the search result given the pairs before it, with its phases first stopping at the recorded steps. Outside time mode the recorded searches together fit into the budget. On an error, no search for the next pair fits into what is left. Time mode never fails. |
| InverseIteration.InverseIterationPrec | linalg/eigen/inverse_iteration.go:19-55 | As Solve, with the criterion chosen from `prec`. The pairs found fit into `maxIters` steps together. The error is `ErrMaxSteps`, and it comes back exactly when fewer than Rows pairs were found, because the next search needs more steps than remain. A budget of 0 or less on a non-empty matrix gives empty lists and `ErrMaxSteps`. |
| InverseIteration.InverseIteration | linalg/eigen/inverse_iteration.go:16-26 | The same as the bounded form with threshold 0: the oscillation criterion governs every search, with the same budget and error guarantees. |
| InverseIteration.InverseIterationTime | linalg/eigen/inverse_iteration.go:63-80 | With phases that eventually stop, it returns exactly Rows pairs, each found under the time criterion with slice t / (2*Rows). |
| EigenHelpers.ShiftedMatrix | linalg/eigen/inverse_iteration.go:192-198 | The result has m's shape. Every diagonal entry is m's minus s, and every other entry is m's. |
| EigenHelpers.ShiftedTimesIsResidual | linalg/eigen/inverse_iteration.go:192-198 | Multiplying by the shifted matrix gives the residual m v - s v. |
| EigenHelpers.ShiftSingularAtEigenpair | linalg/eigen/inverse_iteration.go:200-208 | The squared back error is the squared length of (m - s I) v. That vector is zero exactly when (s, v) is an eigenpair. |
| EigenHelpers.BackErrorSquared | linalg/eigen/inverse_iteration.go:200-208 | The squared back error is non-negative. It is zero exactly when m v equals val v entry by entry. |
| EigenHelpers.BackErrorExpansion | linalg/eigen/inverse_iteration.go:200-207 | As a function of the eigenvalue estimate mu, the squared back error is the quadratic (m v . m v) - 2 mu (v . m v) + mu^2 (v . v). |
| EigenHelpers.MaxAbs | linalg/eigen/inverse_iteration.go:224-227 | The fold of max over absolute values is non-negative and bounds every entry. |
| EigenHelpers.MaxAbsZero | linalg/eigen/inverse_iteration.go:224-228 | The largest absolute entry is 0 exactly when the vector is all zeros, which is the branch test of the normalisation. |
| EigenHelpers.MaxAbsWitness | linalg/eigen/inverse_iteration.go:224-227 | On a non-empty vector the fold's value is attained at some entry. |
| EigenHelpers.DivideByMaxAbs | linalg/eigen/inverse_iteration.go:232-234 | Scaling a nonzero vector by 1/mag puts every entry in [-1, 1] and makes the largest absolute entry exactly 1. Multiplying back by mag gives the original. |
| EigenHelpers.NormalizeMaxElement | linalg/eigen/inverse_iteration.go:223-235 | The length is kept. The zero vector becomes all ones. A nonzero vector becomes one that mag times the result restores. All entries lie in [-1, 1], and a non-empty result has largest absolute entry 1. |
| EigenHelpers.NormalizeMaxElementIdempotent | linalg/eigen/inverse_iteration.go:223-235 | Normalising an already normalised vector changes nothing. |
| EigenHelpers.NormalizeIsPositiveScaling | linalg/eigen/inverse_iteration.go:232-234 | On a nonzero vector the normalisation is multiplication by a positive constant. |
| EigenHelpers.NormalizedIsNonzero | linalg/eigen/inverse_iteration.go:223-235 | A normalised non-empty vector is never zero, so the following `scaleFactor` never divides by zero. |
| EigenHelpers.RemoveProjection | linalg/eigen/inverse_iteration.go:172-175 | Subtracting the projection onto a unit vector leaves a vector orthogonal to it. A vector already orthogonal to it is left unchanged. |
| EigenHelpers.DeleteProjections | linalg/eigen/inverse_iteration.go:170-177 | The length is kept, and with no known eigenvectors the vector is returned unchanged. |
| EigenHelpers.DeleteProjectionsKeepsDot | linalg/eigen/inverse_iteration.go:170-177 | Deflation does not change the dot product with any vector orthogonal to all the known eigenvectors. |
| EigenHelpers.DeleteProjectionsOrthogonal | linalg/eigen/inverse_iteration.go:170-177 | Against orthonormal known eigenvectors, the deflated vector is orthogonal to each of them. |
| EigenHelpers.DeleteProjectionsFixes | linalg/eigen/inverse_iteration.go:170-177 | A vector already orthogonal to all known eigenvectors is left exactly as it is. |
| EigenHelpers.DeleteProjectionsIdempotent | linalg/eigen/inverse_iteration.go:170-177 | Against orthonormal known eigenvectors, deflating twice is deflating once. |
| EigenHelpers.ScaleFactor | linalg/eigen/inverse_iteration.go:187-190 | For a nonzero v, v . v is positive, and the quotient times v . v is v . m v, which fixes the quotient uniquely. |
| EigenHelpers.ScaleFactorOfEigenvector | linalg/eigen/inverse_iteration.go:187-190 | If m v = lambda v for a nonzero v, the Rayleigh quotient is exactly lambda. |
| EigenHelpers.ScaleFactorScaleInvariant | linalg/eigen/inverse_iteration.go:187-190 | Scaling v by any nonzero constant leaves the Rayleigh quotient unchanged. |
| EigenHelpers.ScaleFactorMinimisesBackError | linalg/eigen/inverse_iteration.go:187-190 | For a fixed nonzero vector, the Rayleigh quotient has a squared back error no larger than any other eigenvalue estimate. |
| EigenHelpers.NormalizeKeepsOrthogonality | linalg/eigen/inverse_iteration.go:135-137 | Normalising a nonzero vector keeps it orthogonal to whatever it was orthogonal to. |
| EigenHelpers.Refine | linalg/eigen/inverse_iteration.go:134-138 | The refined vector has the matrix's length, largest absolute entry 1 and is nonzero. Its value is that vector's Rayleigh quotient. Against orthonormal known eigenvectors, and when deflation leaves something nonzero, it is orthogonal to all of them. |
| EigenHelpers.RefineKeepsDirection | linalg/eigen/inverse_iteration.go:135-137 | When the raw iterate and its deflation are nonzero, the refined vector, measured against any vector w orthogonal to the known eigenvectors, equals `DirectionFactor(known, raw)` times the raw iterate measured against w. That factor is positive and does not depend on w. With no known eigenvectors every w qualifies, so the refined vector is a positive multiple of the raw one. |
| EigenHelpers.PowerStep | linalg/eigen/inverse_iteration.go:155-159 | The new vector has the matrix's length, largest absolute entry 1 and is nonzero. The new value is its Rayleigh quotient. Against orthonormal known eigenvectors, and when deflating m v leaves something nonzero, the new vector is orthogonal to all of them. |
| EigenHelpers.PowerStepKeepsDirection | linalg/eigen/inverse_iteration.go:155-158 | When raw = m vec and its deflation are nonzero, the power step's new vector, measured against any vector orthogonal to the known eigenvectors, is the same positive multiple `DirectionFactor(known, raw)` of raw. |
| EigenHelpers.PowerStepFixesEigenpair | linalg/eigen/inverse_iteration.go:155-159 | Take an exact eigenpair with nonzero eigenvalue, orthogonal to the known eigenvectors. One power step reproduces its eigenvalue exactly and returns an eigenvector for it. |
| ImageAlign.Apply | imagealign/src/transformation.go:42-47 | The image's x is the point's design row (x, y, 1, 0, 0, 0) dotted with the unknowns (a, b, tx, c, d, ty), and its y is the row (0, 0, 0, x, y, 1) dotted with them. These are the rows `sourceColumnEquations` writes. |
| ImageAlign.ApplyIdentity | imagealign/src/transformation.go:42-47 | The identity matrix with zero translation maps every point to itself. |
| ImageAlign.Interleave | imagealign/src/transformation.go:23-28 | The interleaved vector has two entries per point: x at index 2i and y at 2i+1. |
| ImageAlign.InterleaveUnique | imagealign/src/transformation.go:23-28 | Any vector with that layout is the interleaving. |
| ImageAlign.ResultVector | imagealign/src/transformation.go:23-28 | The filled right-hand side is exactly the interleaved destination coordinates. |
| ImageAlign.DesignColumns | imagealign/src/transformation.go:49-62 | There are six columns of 2n rows. Row 2i is (x, y, 1, 0, 0, 0) and row 2i+1 is (0, 0, 0, x, y, 1) for source point i. |
| ImageAlign.DesignLayoutUnique | imagealign/src/transformation.go:54-62 | The layout fixes every entry, including the zeros left over from allocation, so only one set of columns has it. |
| ImageAlign.SourceColumnEquations | imagealign/src/transformation.go:49-64 | Allocating zero columns and writing the six entries per point produces exactly that layout. |
| ImageAlign.Unpack | imagealign/src/transformation.go:35-39 | Packing the unpacked transformation gives back the solution vector, in the order (a, b, tx, c, d, ty). |
| ImageAlign.UnpackPack | imagealign/src/transformation.go:35-39 | Unpacking the six unknowns of a transformation gives it back. |
| ImageAlign.DesignTimesApply | imagealign/src/transformation.go:42-62 | For every 6-vector s, the design matrix times s is the interleaved images of the source points under the transformation unpacked from s. |
| ImageAlign.NormalMatrix | imagealign/src/transformation.go:16-21 | The normal matrix is 6x6 and symmetric. |
| ImageAlign.NormalResultOfPoints | imagealign/src/transformation.go:23-32 | For columns with the design layout, the right-hand side is the six sums over the correspondences of x x', y x', x', x y', y y' and y'. Here (x, y) is a source point and (x', y') is its destination. |
| ImageAlign.NormalMatrixTimes | imagealign/src/transformation.go:16-21 | The normal matrix times s is the columns dotted with the design matrix times s, i.e. A^T (A s). |
| ImageAlign.NormalSystemMeaning | imagealign/src/transformation.go:16-32 | s solves the assembled normal equations exactly when the residual A s - b has zero dot product with every column, in both directions. |
| ImageAlign.NormalMatrixSemidefinite | imagealign/src/transformation.go:16-21 | s . (A^T A) s is the squared length of A s, hence non-negative. |
| ImageAlign.ExactFitPredictsDestination | imagealign/src/transformation.go:42-62 | For a transformation that maps every source point onto its destination, the design matrix times its unknowns is exactly the interleaved destination. |
| ImageAlign.ExactFitSolvesNormalEquations | imagealign/src/transformation.go:14-34 | A transformation that maps every source point onto its destination packs to a solution of the normal equations assembled from the design columns. |
| ImageAlign.NormalSolutionMinimises | imagealign/src/transformation.go:16-34 | A solution of the normal equations has a residual no longer than that of any other 6-vector. |
| ImageAlign.NormalSolutionIsLeastSquares | imagealign/src/transformation.go:14-39 | Take the normal equations assembled from columns with the design layout. The transformation unpacked from any solution of them has squared error no larger than that of any transformation. |
| ImageAlign.SolutionIsLeastSquares | imagealign/src/transformation.go:34-39 | For the columns `sourceColumnEquations` builds, a solution of the assembled system unpacks to a transformation that no other transformation beats. |
| ImageAlign.ApproxTransformation | imagealign/src/transformation.go:14-40 | The fitted transformation's six unknowns, in solution order, are the solver's answer for the assembled normal matrix and right-hand side. Whenever that answer solves the normal equations exactly, the fitted transformation has the least squared error of all transformations. |

## Left out

- Floating point: `float64` is `real`, so rounding, overflow, NaN and infinities are not modelled. Facts such as "the largest entry becomes exactly 1" hold over the reals only.
- Kahan summation in the back error is a plain sum.
- `math.Sqrt` is left out:
  - `EigenHelpers.BackErrorSquared` is the square of the Go back error;
  - `normalizeTwoNorm` (the final Euclidean normalisation in `findNextVector`) is not modelled, so the model appends the power phase's vector before that scaling.
- The LU decomposition, its `PivotScale`, `Solve` and the per-phase LU cache, and the three convergence criteria (`Step`, `Converging`, `Best`) are not part of this model. They are folded into the `Oracle` parameter. So is `randomStart`, which draws from `math/rand`, and so is the wall clock behind the time criterion.
- InverseIteration.InverseIterationTime: the time criterion's wall clock is replaced by the assumption that every phase eventually stops. Without that assumption the Go loop need not terminate.
- Whether the returned pairs converge to true eigenpairs is numerical analysis and is not claimed. `EigenHelpers.PowerStepFixesEigenpair` states only that exact eigenpairs are fixed points of the power step.
- The non-square panic is the precondition `IsSquare(m)` of the entry points.
- EigenHelpers.ScaleFactor: it requires a nonzero vector. For the zero vector Go computes 0/0 = NaN, which has no real counterpart. The calls after each refinement (`linalg/eigen/inverse_iteration.go:138`, `:159`) never see a zero vector (`EigenHelpers.NormalizedIsNonzero`). The first call (`:116`) gets the deflated random start, which is not normalised. It is zero when the start lies in the span of the eigenvectors already found, and Go then computes NaN. That first estimate belongs to the `Oracle` in this model.
- InverseIteration.InverseIterationTime: it requires at least one row, because Go divides the duration by `m.Rows*2`, which panics for an empty matrix.
- InverseIteration.PhaseLoop: `remainingIterations` is a Go `int`. In time mode it keeps decreasing, and its 64-bit wrap-around after 2^63 steps is not modelled.
- The Cholesky decomposition and solve are the `solve` parameter of `ImageAlign.ApproxTransformation`, as is the `Point` type's package.
- ImageAlign.ApproxTransformation: it requires as many source as destination points. With unequal counts Go dots vectors of different lengths, which is outside the `linalg` contract.
