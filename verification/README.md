# FEM pose-deviation smoother, QP formulation

A Dafny model of the quadratic program that Apollo's FEM pose-deviation
smoother builds for a reference path of N points, and of the steps around it:
input validation, problem sizing, the solver's verdict and reading the
smoothed path back out of the solution.

The smoother optimises 2N variables interleaved point by point
(x0, y0, x1, y1, ...). It minimises 1/2 x^T P x + q^T x subject to
lower <= A x <= upper. The parts are:

- P, the kernel: a symmetric banded matrix. Only its upper triangle is stored,
  in compressed sparse column (CSC) form, and every value is doubled.
- q, the offset (the linear term).
- A, the affine constraint: the identity matrix, with bounds that put a box
  around each reference point.
- The warm start: the reference path itself.

The solver (OSQP) is not modelled. It is a function parameter that maps the
formulated QP to what the solver leaves behind: a status code and possibly a
solution vector.

Modules, one per file:

- `Csc` (`csc.dfy`): CSC matrices. `Pack` assembles a matrix from its columns
  and `Column` reads one back; the two form a round trip. `QuadForm` evaluates
  x^T P x of the symmetric matrix whose upper triangle is stored.
- `Layout` (`layout.dfy`): points and the interleaved decision vector.
  `Interleave` and `Deinterleave` are inverse to each other.
- `Kernel` (`kernel.dfy`): the kernel two ways.
  - As the source builds it: five loops that append slots to per-column
    lists. `KernelEmissions`, `Fill` and `CalculateKernel` model this,
    including the column counter and its check.
  - As a reference derived from the difference stencils: `StencilColumn` and
    `KernelMatrix`.
  - For N >= 4 the two coincide. For N = 3 the source's loops overlap.
- `Constraints` (`constraints.dfy`):
  - the offset, both as written (`CalculateOffset`) and as intended
    (`ReferenceOffset`);
  - the identity constraint matrix and its box bounds;
  - the warm start.
- `Objective` (`objective.dfy`): what the QP means. The kernel's quadratic
  form is twice the smoothing cost `Cost`, which is made of three terms:
  - the squared second differences, weighted by `femPose`;
  - the squared first differences, weighted by `pathLength`;
  - the squared distance to a target, weighted by `refDeviation`.

  The module also proves that the kernel is positive semidefinite, and which
  target each offset makes the QP pull towards.
- `Smoother` (`smoother.dfy`): `Validate`, sizing as written and as
  intended, `Formulate`, `StatusAccepted`, `Verdict`, `Solve` (validation,
  formulation and verdict) and `Optimize` (which also reads the path back).

`c_float` is modelled as `real`, and `c_int`/`int` as unbounded `int`.

A few facts about the code that the model keeps as written:

- The second point's diagonal is 5 w_f + 2 w_l + w_r (lines 148-150). For
  N >= 4 that is what the stencils give. For N = 3 the corrected kernel
  (`Kernel.KernelMatrix`) departs from line 148: there the second point is
  also the second-to-last, and its diagonal is 4 w_f + 2 w_l + w_r.
- The last point's one-back coefficient is -2 w_f - w_l (line 188).
- Nothing checks that the bound half-widths are non-negative.
  `Constraints.BoxOrdered` states when the boxes are non-empty.

## Model

All source paths are relative to the repository root.

| member | source | states |
|---|---|---|
| Smoother.Validate | modules/planning/math/discretized_points_smoothing/fem_pose_deviation_smoother.cc:31-51 | the input passes exactly when the three sequences have equal length and 3 <= N <= INT_MAX; each error is produced exactly for its own condition: empty path, length mismatch of a non-empty path, fewer than 3 points, more than INT_MAX points |
| Smoother.SizeAsWritten | modules/planning/math/discretized_points_smoothing/fem_pose_deviation_smoother.cc:53-55 | as written: the constraint count equals the variable count, and the variable count is 2N exactly when the previously stored variable count happens to equal N |
| Smoother.SizingDriftsAcrossCalls | modules/planning/math/discretized_points_smoothing/fem_pose_deviation_smoother.cc:53-55 | as written: two consecutive calls on the same path never both get 2N variables; after a correctly sized call the next one counts 4N |
| Smoother.SizingMismatchesBounds | modules/planning/math/discretized_points_smoothing/fem_pose_deviation_smoother.cc:53-55 | given the as-written count, if the stored count is not N, the identity constraint matrix has a different number of columns than there are bound pairs; without undefined behaviour first, the source reaches the constraint builder in that state only for N = 3 with a stored count of 4 |
| Smoother.DriftedSizingAborts | modules/planning/math/discretized_points_smoothing/fem_pose_deviation_smoother.cc:54-61 | for N >= 4 the kernel builder gets past its checks at lines 132 and 195 with the as-written count exactly when the stored count was N; any other stored count aborts at line 132 or line 195, except that for a stored count from 3 to N - 3 the interior loop first writes past the end of `columns` (line 160) |
| Smoother.DriftedSizingOverruns | modules/planning/math/discretized_points_smoothing/fem_pose_deviation_smoother.cc:54-61 | for a stored count from 3 to N - 3 the check at line 132 passes, and an interior-loop fill targets column 2 * stored, past the last column allocated at line 135 |
| Smoother.ThreePointDriftPassesKernelChecks | modules/planning/math/discretized_points_smoothing/fem_pose_deviation_smoother.cc:54-61 | a 3-point path with a stored count of 4 is sized at 8 variables, and the loops fill exactly 8 columns, all in range, so both kernel checks pass |
| Kernel.CountIgnoresVariables | modules/planning/math/discretized_points_smoothing/fem_pose_deviation_smoother.cc:136-195 | for N >= 4 the column counter is 2N whatever variable count the builder was sized with |
| Smoother.Size | modules/planning/math/discretized_points_smoothing/fem_pose_deviation_smoother.cc:53-55 | intended sizing: 2N variables and 2N constraints whatever the earlier state; it agrees with the as-written step exactly in the states where that step is right |
| Kernel.CalculateKernel | modules/planning/math/discretized_points_smoothing/fem_pose_deviation_smoother.cc:129-207 | with 2N variables the builder succeeds exactly when N >= 4, and then yields the stencil-derived kernel; the CHECK_GT on the variable count fails exactly when N <= 2; the column-count check fails exactly when N = 3 |
| Kernel.KernelEmissions | modules/planning/math/discretized_points_smoothing/fem_pose_deviation_smoother.cc:136-193 | the loops' column fills in execution order; the line-195 counter is its length, 8 plus 2 per interior point; the first four fills are columns 0-3 and the last two are the final two columns of the variable count |
| Kernel.EmissionCount | modules/planning/math/discretized_points_smoothing/fem_pose_deviation_smoother.cc:136-195 | the five loops advance the column counter 2N times for N >= 4, but 8 times for N = 3 |
| Kernel.ThreePointLoopsOverlap | modules/planning/math/discretized_points_smoothing/fem_pose_deviation_smoother.cc:145-195 | for N = 3 the second-point loop and the second-to-last-point loop both fill columns 2 and 3; the latter emits row index -2; the counter reaches 8, so the check against 6 variables fails |
| Kernel.SourceColumnsMatchStencil | modules/planning/math/discretized_points_smoothing/fem_pose_deviation_smoother.cc:138-193 | for N >= 4 the column lists the five loops leave behind are exactly the upper-triangle stencil columns of w_f D2^T D2 + w_l D1^T D1 + w_r I |
| Kernel.SourceKernelColumns | modules/planning/math/discretized_points_smoothing/fem_pose_deviation_smoother.cc:197-206 | for N >= 4, doubling every coefficient of the source's column lists gives the columns the kernel matrix is packed from |
| Kernel.KernelValues | modules/planning/math/discretized_points_smoothing/fem_pose_deviation_smoother.cc:138-206 | for N >= 4, reading column c back out of the packed kernel gives twice the hard-coded coefficients of the loop that serves column c |
| Kernel.KernelSize | modules/planning/math/discretized_points_smoothing/fem_pose_deviation_smoother.cc:197-206 | the packed kernel stores 6N - 6 values; its column pointers strictly increase, so no column is empty |
| Kernel.KernelColumnLayout | modules/planning/math/discretized_points_smoothing/fem_pose_deviation_smoother.cc:138-193 | column c holds 1, 2 or 3 slots (for c < 2, c < 4, otherwise) at rows c - 4, c - 2, c: the same axis, one and two points back |
| Kernel.KernelTriangle | modules/planning/math/discretized_points_smoothing/fem_pose_deviation_smoother.cc:133-193 | only the upper triangle is stored; rows strictly increase within a column and end on the diagonal; x and y never couple |
| Kernel.KernelMatrix | modules/planning/math/discretized_points_smoothing/fem_pose_deviation_smoother.cc:129-207 | corrected kernel, defined for every N >= 3: a well-formed 2N-column CSC matrix whose row indices lie in 0 .. 2N - 1 |
| Csc.PackColumn | modules/planning/math/discretized_points_smoothing/fem_pose_deviation_smoother.cc:197-206 | round trip: reading column c out of the flattened arrays returns the c-th column list |
| Csc.PackPointer | modules/planning/math/discretized_points_smoothing/fem_pose_deviation_smoother.cc:197-206 | column pointer c is the number of slots stored in columns before c |
| Objective.KernelIsDoubledObjective | modules/planning/math/discretized_points_smoothing/fem_pose_deviation_smoother.cc:129-207 | for every N >= 3 and every path v, x^T P x is twice the cost of v: the femPose-weighted squared second differences, plus the pathLength-weighted squared first differences, plus refDeviation times the squared length of v |
| Objective.KernelPositiveSemidefinite | modules/planning/math/discretized_points_smoothing/fem_pose_deviation_smoother.cc:129-207 | with non-negative weights the kernel's quadratic form is never negative |
| Constraints.CalculateOffset | modules/planning/math/discretized_points_smoothing/fem_pose_deviation_smoother.cc:209-213 | as written: one entry per variable, each -2 w_r, whatever the reference path |
| Objective.ConstantOffsetTargetsUnitPoint | modules/planning/math/discretized_points_smoothing/fem_pose_deviation_smoother.cc:209-213 | as written: with the constant offset the QP objective equals the cost measured against the point (1, 1) in every slot, less a constant |
| Objective.ConstantOffsetMissesReference | modules/planning/math/discretized_points_smoothing/fem_pose_deviation_smoother.cc:209-213 | counterexample: for a path resting at the origin, which costs nothing against itself, the QP with the constant offset strictly prefers the all-ones path, which does not fit the reference |
| Constraints.ReferenceOffset | modules/planning/math/discretized_points_smoothing/fem_pose_deviation_smoother.cc:209-213 | corrected offset: 2N entries, slot 2i holding -2 w_r x_i and slot 2i + 1 holding -2 w_r y_i |
| Objective.ReferenceOffsetTargetsReference | modules/planning/math/discretized_points_smoothing/fem_pose_deviation_smoother.cc:209-213 | with the corrected offset the QP objective equals the cost measured against the reference path, less a constant that does not depend on the candidate path |
| Objective.LinearTermTarget | modules/planning/math/discretized_points_smoothing/fem_pose_deviation_smoother.cc:209-213 | any offset of the form -2 w_r t makes the QP objective the cost against target t, less a constant |
| Constraints.IdentityMatrix | modules/planning/math/discretized_points_smoothing/fem_pose_deviation_smoother.cc:219-226 | the constraint matrix has value 1.0 and row i in slot i, and pointer i equal to i: column c is exactly [(c, 1.0)] |
| Constraints.CalculateAffineConstraint | modules/planning/math/discretized_points_smoothing/fem_pose_deviation_smoother.cc:215-235 | the identity over the given variable count, plus 2N bound pairs: slot 2i is bounded by x_i -/+ xb_i and slot 2i + 1 by y_i -/+ yb_i |
| Constraints.BoxOrdered | modules/planning/math/discretized_points_smoothing/fem_pose_deviation_smoother.cc:228-234 | every lower bound is at most its upper bound exactly when no half-width is negative, which is exactly when the reference path satisfies the constraints |
| Constraints.BoxWidth | modules/planning/math/discretized_points_smoothing/fem_pose_deviation_smoother.cc:228-234 | each box is centred on its reference coordinate and is twice its half-width wide |
| Constraints.BoxMeansNeighbourhood | modules/planning/math/discretized_points_smoothing/fem_pose_deviation_smoother.cc:228-234 | a vector satisfies the constraints exactly when every point it encodes lies within its half-widths of its reference point |
| Constraints.SetPrimalWarmStart | modules/planning/math/discretized_points_smoothing/fem_pose_deviation_smoother.cc:237-244 | the warm start has 2N entries, with point i's x and y at slots 2i and 2i + 1; reading it back yields the reference coordinates |
| Layout.Deinterleave | modules/planning/math/discretized_points_smoothing/fem_pose_deviation_smoother.cc:110-117 | N x's and N y's; point i is read from slots 2i and 2i + 1 |
| Layout.DeinterleaveInterleave | modules/planning/math/discretized_points_smoothing/fem_pose_deviation_smoother.cc:110-117 | reading a solution back inverts writing it: de-interleaving an interleaved pair of coordinate sequences returns them |
| Layout.InterleaveDeinterleave | modules/planning/math/discretized_points_smoothing/fem_pose_deviation_smoother.cc:110-117 | and conversely: an even-length vector is re-interleaved from its read-back coordinates |
| Smoother.StatusAccepted | modules/planning/math/discretized_points_smoothing/fem_pose_deviation_smoother.cc:273-285 | a status is accepted exactly when it is 1 (solved) or 2 (solved inaccurately); every negative status is rejected |
| Smoother.Verdict | modules/planning/math/discretized_points_smoothing/fem_pose_deviation_smoother.cc:98-108 | a solve succeeds exactly when there is a workspace, its status is accepted and it holds a solution, and then yields that solution; otherwise it names the first missing piece |
| Smoother.Formulate | modules/planning/math/discretized_points_smoothing/fem_pose_deviation_smoother.cc:53-78 | the QP of a valid input, built with the corrected sizing, kernel and offset (the findings at lines 54, 145-195 and 211), has 2N variables and 2N constraints, one offset and one warm-start entry per variable, and one bound pair per constraint |
| Smoother.FormulationShape | modules/planning/math/discretized_points_smoothing/fem_pose_deviation_smoother.cc:57-78 | the formulated matrices are what the solver expects: a well-formed, upper-triangular kernel whose rows are in range, increase within each column and end on the diagonal, with 6N - 6 stored values; an identity constraint matrix; a warm start that is feasible exactly when no half-width is negative |
| Smoother.FormulationMinimisesCost | modules/planning/math/discretized_points_smoothing/fem_pose_deviation_smoother.cc:57-78 | with the corrected kernel and offset (the findings at lines 145-195 and 211), the formulated objective 1/2 v^T P v + q^T v is the smoothing cost of v against the reference path, less a constant; the quadratic part is convex for non-negative weights |
| Smoother.Solve | modules/planning/math/discretized_points_smoothing/fem_pose_deviation_smoother.cc:31-108 | an invalid input fails with its validation error; a valid input gets the verdict on what the solver leaves for the formulated QP; a successful solution has 2N entries |
| Smoother.Optimize | modules/planning/math/discretized_points_smoothing/fem_pose_deviation_smoother.cc:29-127 | an invalid input fails with its validation error; a valid input succeeds exactly when the solver's verdict does, and otherwise fails with the verdict's error; on success point i is read from slots 2i and 2i + 1 of the solution |
| Smoother.OutputIsWholeSolution | modules/planning/math/discretized_points_smoothing/fem_pose_deviation_smoother.cc:110-117 | the returned points account for the whole solution: interleaving them again gives back the solution vector |
| Smoother.RejectsBeforeSolving | modules/planning/math/discretized_points_smoothing/fem_pose_deviation_smoother.cc:31-51 | for an invalid input the outcome does not depend on the solver and is a failure |
| Smoother.WarmStartReturnsReference | modules/planning/math/discretized_points_smoothing/fem_pose_deviation_smoother.cc:110-117 | if the solver returns the warm start unchanged, the smoother returns the reference path |
| Smoother.FeasibleOutputStaysNearReference | modules/planning/math/discretized_points_smoothing/fem_pose_deviation_smoother.cc:110-117 | if the solution satisfies the constraints, every output point lies within its half-widths of its reference point |
| Smoother.ZeroBoundsReturnReference | modules/planning/math/discretized_points_smoothing/fem_pose_deviation_smoother.cc:110-117 | if every half-width is zero, a feasible solution reads back as the reference path exactly |

## Left out

- The OSQP calls are not modelled: settings, `csc_matrix`, `osqp_setup`,
  `osqp_warm_start_x` and `osqp_solve` (lines 80-92 and 256-271). The solver
  is the parameter `solve`. Its settings (`OsqpSettings`) are not part of the
  model because they affect only the solver.
- Memory handling is not modelled: `c_malloc`/`c_free`/`osqp_cleanup` on both
  exit paths (lines 99-107 and 119-124). Reals and sequences have no
  ownership.
- `AERROR` logging is not modelled.
- IEEE floating-point rounding is not modelled: `c_float` is a real.
- modules/storytelling/story_tellers/base_teller.h is not part of this model.
  It declares an unrelated interface with no smoothing logic.
- Smoother.Size: does not model the 32-bit overflow of `2N` that a path of
  2^30 or more points would cause. Validation admits up to INT_MAX points,
  but integers here are unbounded.
- Smoother.SizeAsWritten: does not model the 32-bit overflow of
  `num_of_variables_ * 2` (line 54) once the stored count exceeds
  2^30 - 1.
- Smoother.Verdict: the source dereferences the workspace at line 273
  without checking it for null (the null check comes only at line 98). The
  model treats a missing workspace as a failure instead of undefined
  behaviour.
- Smoother.Optimize: requires (through `AnswersInSize`) that a solution, when
  present, has one entry per variable. The source reads `x[2i]` and `x[2i + 1]` unchecked (lines
  113-116), and this is what the solver promises for its output.
- Smoother.Formulate: builds the QP from the corrected members of the
  findings at lines 54, 145-195 and 211 (`Size`, `KernelMatrix`, `ReferenceOffset`). The source calls the
  as-written sizing at line 54, `CalculateKernel` at line 61 (which aborts
  for N = 3) and the constant `CalculateOffset` at line 74. The as-written
  members are modelled and characterised separately.
- Smoother.FormulationMinimisesCost: states the objective of the corrected
  formulation, the cost against the reference path. With the source's
  constant offset (line 211) the objective is the cost against the all-ones
  path instead (`Objective.ConstantOffsetTargetsUnitPoint`).
- Smoother.Optimize: uses the intended sizing, kernel and offset (the
  corrected members of the findings below). The as-written members are
  modelled and characterised separately.
- Kernel.CalculateKernel: requires a variable count of 2N, which is what the
  intended sizing gives. Under the as-written sizing the count can be
  anything (the finding at line 54).
- Kernel.CalculateKernel: a failing `CHECK` aborts the process. The model
  returns it as an outcome (`TooFewVariables`, `ColumnCountMismatch`).
- The `CHECK_EQ` calls at line 239 and line 254 are not modelled as failure
  paths. In the model they always hold: the warm start is built from the same
  points, and `Formulate` ensures equal bound lengths.
- The accessors for the results (`x_`, `y_`) are not modelled. `Optimize`
  returns the coordinates directly.

## Findings

| source | as written | input that shows it | evidently intended | confidence | as-written member | corrected member |
|---|---|---|---|---|---|---|
| modules/planning/math/discretized_points_smoothing/fem_pose_deviation_smoother.cc:54 | `num_of_variables_ = num_of_variables_ * 2` doubles the previously stored variable count | a 4-point path with a stored count of 4: the first call gets 8 variables and completes; the next gets 16 and aborts at line 195, where the loops fill 8 columns. A 3-point path with a stored count of 4 gets 8 variables, passes both kernel checks, and builds 8 constraint columns against 6 bound pairs. For N >= 6 a stored count from 3 to N - 3 makes the interior loop write past the end of `columns` (line 160) | `num_of_variables_ = num_of_points_ * 2` | high (not executed) | Smoother.SizeAsWritten, Smoother.SizingDriftsAcrossCalls, Smoother.DriftedSizingAborts, Smoother.DriftedSizingOverruns, Smoother.ThreePointDriftPassesKernelChecks, Smoother.SizingMismatchesBounds | Smoother.Size |
| modules/planning/math/discretized_points_smoothing/fem_pose_deviation_smoother.cc:145-195 | the first-two and last-two loops overlap when N = 3, yet validation admits N = 3 | N = 3: the column counter reaches 8, not 6, so `CHECK_EQ(col_num, num_of_variables_)` aborts; a slot with row -2 is also emitted | for N = 3 the stencil kernel of w_f D2^T D2 + w_l D1^T D1 + w_r I, or validation requiring N >= 4 | high (not executed) | Kernel.CalculateKernel, Kernel.ThreePointLoopsOverlap | Kernel.KernelMatrix, Objective.KernelIsDoubledObjective |
| modules/planning/math/discretized_points_smoothing/fem_pose_deviation_smoother.cc:211 | every entry of q is the constant `-2.0 * weight_ref_deviation_` | reference path of N >= 3 points at the origin, w_r > 0: the QP objective is lower at the all-ones path than at the reference path, although the reference costs nothing | q = -2 w_r (x0, y0, x1, y1, ...), making the deviation term w_r ‖x - ref‖² | high (not executed) | Constraints.CalculateOffset, Objective.ConstantOffsetTargetsUnitPoint, Objective.ConstantOffsetMissesReference | Constraints.ReferenceOffset, Objective.ReferenceOffsetTargetsReference |
