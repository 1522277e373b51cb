/** The smoother's entry point.

    `Optimize` checks its inputs, sizes the problem, builds the QP
    (kernel, affine constraint, offset, warm start), hands it to the solver,
    classifies the solver's verdict and reads the smoothed path back out of
    the solution. The solver itself is not modelled: it is a parameter that maps a
    QP to what the solver leaves behind (a workspace with a status code and,
    possibly, a solution vector). */
module Smoother {
  import opened Csc
  import opened Layout
  import opened Kernel
  import opened Constraints
  import opened Objective

  /** The largest value of the platform's `int`. */
  const IntMax: int := 0x7fff_ffff

  datatype Option<T> = None | Some(value: T)

  datatype Result<T, E> = Success(value: T) | Failure(error: E)

  /** The smoother's inputs: the reference path, the half-width of the box
      around each reference point in x and in y, and the cost weights. */
  datatype Input = Input(refs: seq<Point>, xBounds: seq<real>, yBounds: seq<real>, weights: Weights)

  /** Why `Optimize` returned false. */
  datatype Error =
    | EmptyReference
    | SizeMismatch
    | TooFewPoints
    | TooManyPoints
    | NoWorkspace
    | SolverFailed(status: int)
    | NoSolution

  /** What the solver leaves behind: its status code and, when it produced
      one, the primal solution. */
  datatype Workspace = Workspace(status: int, solution: Option<seq<real>>)

  // ---------------------------------------------------------------------------
  // Validation
  // ---------------------------------------------------------------------------

  /** One x bound and one y bound per reference point. */
  predicate SameSizes(input: Input) {
    |input.refs| == |input.xBounds| && |input.xBounds| == |input.yBounds|
  }

  /** An input the smoother accepts. */
  predicate Valid(input: Input) {
    SameSizes(input) && 3 <= |input.refs| <= IntMax
  }

  /** The sanity checks, in the source's order; `None` when all pass. Each
      error is characterised by the input alone, whatever the order. */
  function Validate(input: Input): (e: Option<Error>)
    ensures e.None? <==> Valid(input)
    ensures e == Some(EmptyReference) <==> |input.refs| == 0
    ensures e == Some(SizeMismatch) <==> |input.refs| != 0 && !SameSizes(input)
    ensures e == Some(TooFewPoints) <==> SameSizes(input) && 0 < |input.refs| < 3
    ensures e == Some(TooManyPoints) <==> SameSizes(input) && |input.refs| > IntMax
  {
    if |input.refs| == 0 then Some(EmptyReference)
    else if |input.refs| != |input.xBounds| || |input.xBounds| != |input.yBounds| then Some(SizeMismatch)
    else if |input.refs| < 3 then Some(TooFewPoints)
    else if |input.refs| > IntMax then Some(TooManyPoints)
    else None
  }

  // ---------------------------------------------------------------------------
  // Sizing
  // ---------------------------------------------------------------------------

  /** The problem dimensions the smoother keeps between calls. */
  datatype Sizes = Sizes(numPoints: int, numVariables: int, numConstraints: int)

  /** The sizing step as written: the variable count is derived from the
      previous variable count rather than from the number of points. */
  function SizeAsWritten(prior: Sizes, numPoints: nat): (s: Sizes)
    ensures s.numPoints == numPoints && s.numConstraints == s.numVariables
    ensures s.numVariables == 2 * numPoints <==> prior.numVariables == numPoints
  {
    Sizes(numPoints, prior.numVariables * 2, prior.numVariables * 2)
  }

  /** Counterexample: starting from any state, two consecutive calls on the
      same non-empty path cannot both size the problem at two variables per
      point; after a correctly sized call the next one counts four. */
  lemma SizingDriftsAcrossCalls(prior: Sizes, numPoints: nat)
    requires numPoints > 0
    ensures var first := SizeAsWritten(prior, numPoints);
      var second := SizeAsWritten(first, numPoints);
      && !(first.numVariables == 2 * numPoints && second.numVariables == 2 * numPoints)
      && (first.numVariables == 2 * numPoints ==> second.numVariables == 4 * numPoints)
  {
    var first := SizeAsWritten(prior, numPoints);
    if first.numVariables == 2 * numPoints {
      assert SizeAsWritten(first, numPoints).numVariables == 2 * first.numVariables;
    }
  }

  /** Counterexample: given the as-written count, whenever the stored count is
      not the number of points, the identity block of the constraint matrix has
      a different number of columns than there are bound pairs. The source
      reaches the constraint builder with such a count only for three points
      and a stored count of 4 (`ThreePointDriftPassesKernelChecks`); for four
      or more points the kernel builder aborts first (`DriftedSizingAborts`). */
  lemma SizingMismatchesBounds(prior: Sizes, input: Input)
    requires SameSizes(input) && prior.numVariables >= 0 && prior.numVariables != |input.refs|
    ensures var s := SizeAsWritten(prior, |input.refs|);
      var c := CalculateAffineConstraint(s.numVariables, input.refs, input.xBounds, input.yBounds);
      |c.a.indptr| - 1 != |c.lower|
  {
  }

  /** With the as-written count, the kernel builder of a path of four or more
      points gets past its two checks exactly when the stored count was N:
      otherwise the count is at most 4 and the first check fails, or the loops
      fill 2N columns against a different count and the final check fails.
      For a stored count from 3 to N - 3 the interior loop writes past the
      columns it allocated before the final check (`DriftedSizingOverruns`);
      in every other case the constraint builder is not reached. */
  lemma DriftedSizingAborts(prior: Sizes, numPoints: nat, w: Weights)
    requires numPoints >= 4
    ensures var s := SizeAsWritten(prior, numPoints);
      (s.numVariables > 4 && |KernelEmissions(numPoints, s.numVariables, w)| == s.numVariables)
      <==> prior.numVariables == numPoints
  {
    CountIgnoresVariables(numPoints, SizeAsWritten(prior, numPoints).numVariables, w);
  }

  /** With the as-written count and a stored count from 3 to N - 3, the first
      check passes but an interior-loop fill targets column 2 * stored, one past
      the last of the columns the builder allocated. */
  lemma DriftedSizingOverruns(prior: Sizes, numPoints: nat, w: Weights)
    requires 3 <= prior.numVariables <= numPoints - 3
    ensures var s := SizeAsWritten(prior, numPoints);
      var ems := KernelEmissions(numPoints, s.numVariables, w);
      s.numVariables > 4 && 4 <= s.numVariables < |ems| - 4 && ems[s.numVariables].col == s.numVariables
  {
    var s := SizeAsWritten(prior, numPoints);
    var ems := KernelEmissions(numPoints, s.numVariables, w);
    var interior := InteriorEmissions(w, 2, numPoints - 2);
    InteriorEmissionAt(w, 2, numPoints - 2, s.numVariables - 4);
    assert ems[s.numVariables] == interior[s.numVariables - 4];
  }

  /** A three-point path sized at 8 variables (stored count 4) passes both
      checks of the kernel builder: its loops fill 8 columns, all inside the
      8 it allocated, so the call goes on to build the mismatched constraints. */
  lemma ThreePointDriftPassesKernelChecks(w: Weights)
    ensures SizeAsWritten(Sizes(3, 4, 4), 3).numVariables == 8
    ensures var ems := KernelEmissions(3, 8, w);
      |ems| == 8 && forall i :: 0 <= i < |ems| ==> 0 <= ems[i].col < 8
  {
  }

  /** The sizing as intended: two variables per point and one box constraint
      per variable, independent of any earlier call. */
  function Size(numPoints: nat): (s: Sizes)
    ensures s.numPoints == numPoints
    ensures s.numVariables == 2 * numPoints && s.numConstraints == s.numVariables
    ensures forall prior: Sizes :: prior.numVariables == numPoints ==> SizeAsWritten(prior, numPoints) == s
  {
    Sizes(numPoints, 2 * numPoints, 2 * numPoints)
  }

  // ---------------------------------------------------------------------------
  // Formulation
  // ---------------------------------------------------------------------------

  /** The QP handed to the solver: minimise 1/2 x^T P x + q^T x subject to
      lower <= A x <= upper over `n` variables and `m` constraints, starting
      from `warmStart`. */
  datatype Qp = Qp(n: nat, m: nat, p: Matrix, q: seq<real>, a: Matrix,
                   lower: seq<real>, upper: seq<real>, warmStart: seq<real>)

  /** The QP of a valid input, built with the intended sizing, kernel and
      offset: every vector has one entry per variable or per constraint. */
  function Formulate(input: Input): (qp: Qp)
    requires Valid(input)
    ensures qp.n == Size(|input.refs|).numVariables && qp.m == Size(|input.refs|).numConstraints
    ensures |qp.q| == qp.n && |qp.warmStart| == qp.n
    ensures |qp.lower| == qp.m && |qp.upper| == qp.m
  {
    var n := |input.refs|;
    var s := Size(n);
    var c := CalculateAffineConstraint(s.numVariables, input.refs, input.xBounds, input.yBounds);
    Qp(s.numVariables, s.numConstraints, KernelMatrix(n, input.weights),
       ReferenceOffset(input.refs, input.weights), c.a, c.lower, c.upper,
       SetPrimalWarmStart(input.refs))
  }

  /** The formulated matrices are what the solver expects: an upper-triangular
      kernel with sorted rows, ending on the diagonal, with 6N - 6 stored
      values; an identity constraint matrix; and a warm start that is feasible
      exactly when no half-width is negative. */
  lemma FormulationShape(input: Input)
    requires Valid(input)
    ensures var qp := Formulate(input);
      && WellFormed(qp.p, qp.n) && RowsBelow(qp.p, qp.n)
      && UpperTriangular(qp.p, qp.n) && SortedWithDiagonalLast(qp.p, qp.n)
      && |qp.p.data| == 6 * |input.refs| - 6
      && WellFormed(qp.a, qp.n) && (forall c :: 0 <= c < qp.n ==> Column(qp.a, qp.n, c) == [Slot(c, 1.0)])
      && (InBox(qp.warmStart, qp.lower, qp.upper) <==> NonNegativeBounds(input.xBounds, input.yBounds))
  {
    var n := |input.refs|;
    KernelTriangle(n, input.weights);
    KernelSize(n, input.weights);
    BoxOrdered(input.refs, input.xBounds, input.yBounds);
  }

  /** The objective of the formulated QP is the smoothing cost measured
      against the reference path, less a constant that does not depend on
      the candidate path; with non-negative weights the quadratic part is
      convex. */
  lemma FormulationMinimisesCost(input: Input, v: seq<real>)
    requires Valid(input) && |v| == 2 * |input.refs|
    ensures var qp := Formulate(input);
      var n := |input.refs|;
      && 0.5 * QuadForm(qp.p, qp.n, v) + Dot(qp.q, v, qp.n)
         == Cost(input.weights, v, Flatten(input.refs), n)
            - TargetConstant(input.weights.refDeviation, Flatten(input.refs), 2 * n)
      && (NonNegative(input.weights) ==> QuadForm(qp.p, qp.n, v) >= 0.0)
  {
    var n := |input.refs|;
    ReferenceOffsetTargetsReference(input.refs, input.weights, v);
    if NonNegative(input.weights) {
      KernelPositiveSemidefinite(n, input.weights, v);
    }
  }

  // ---------------------------------------------------------------------------
  // Solving and reading back
  // ---------------------------------------------------------------------------

  /** The status check after the solve: negative codes fail, and of the
      others only 1 (solved) and 2 (solved inaccurately) are accepted. */
  function StatusAccepted(status: int): (ok: bool)
    ensures ok <==> status == 1 || status == 2
    ensures status < 0 ==> !ok
  {
    if status < 0 then false
    else if status != 1 && status != 2 then false
    else true
  }

  /** A solution, when the solver returns one, has one entry per variable. */
  predicate SolutionFits(work: Option<Workspace>, n: nat) {
    work.Some? && work.value.solution.Some? ==> |work.value.solution.value| == n
  }

  /** The solver answers every QP with a solution of the QP's dimension, if any. */
  ghost predicate AnswersInSize(solve: Qp -> Option<Workspace>) {
    forall qp: Qp :: SolutionFits(solve(qp), qp.n)
  }

  /** The solver's verdict: the solution when there is a workspace whose
      status is accepted and which holds a solution, and otherwise why not. */
  function Verdict(work: Option<Workspace>): (r: Result<seq<real>, Error>)
    ensures r.Success? <==> work.Some? && StatusAccepted(work.value.status) && work.value.solution.Some?
    ensures r.Success? ==> r.value == work.value.solution.value
    ensures work.None? ==> r == Failure(NoWorkspace)
    ensures work.Some? && !StatusAccepted(work.value.status) ==> r == Failure(SolverFailed(work.value.status))
    ensures work.Some? && StatusAccepted(work.value.status) && work.value.solution.None? ==> r == Failure(NoSolution)
  {
    if work.None? then Failure(NoWorkspace)
    else if !StatusAccepted(work.value.status) then Failure(SolverFailed(work.value.status))
    else if work.value.solution.None? then Failure(NoSolution)
    else Success(work.value.solution.value)
  }

  /** Validation, formulation and the solver's verdict: the solution vector
      of a successful run, or why there is none. Invalid inputs fail before
      the solver is consulted. */
  function Solve(input: Input, solve: Qp -> Option<Workspace>): (r: Result<seq<real>, Error>)
    requires AnswersInSize(solve)
    ensures !Valid(input) ==> r == Failure(Validate(input).value)
    ensures Valid(input) ==> r == Verdict(solve(Formulate(input)))
    ensures r.Success? ==> |r.value| == 2 * |input.refs|
  {
    match Validate(input)
    case Some(e) => Failure(e)
    case None =>
      var qp := Formulate(input);
      assert SolutionFits(solve(qp), qp.n);
      Verdict(solve(qp))
  }

  /** The smoother: on success the smoothed path, point i read from slots 2i
      and 2i + 1 of the solution of the formulated QP. */
  function Optimize(input: Input, solve: Qp -> Option<Workspace>): (r: Result<Coordinates, Error>)
    requires AnswersInSize(solve)
    ensures !Valid(input) ==> r == Failure(Validate(input).value)
    ensures r.Success? <==> Valid(input) && Verdict(solve(Formulate(input))).Success?
    ensures Valid(input) && r.Failure? ==> r.error == Verdict(solve(Formulate(input))).error
    ensures r.Success? ==> r.value == Deinterleave(Solve(input, solve).value, |input.refs|)
  {
    match Solve(input, solve)
    case Failure(e) => Failure(e)
    case Success(x) => Success(Deinterleave(x, |input.refs|))
  }

  /** The returned path accounts for the whole solution: interleaving it
      again gives back the solution vector. */
  lemma OutputIsWholeSolution(input: Input, solve: Qp -> Option<Workspace>, out: Coordinates)
    requires AnswersInSize(solve) && Optimize(input, solve) == Success(out)
    ensures Interleave(out.xs, out.ys) == Solve(input, solve).value
  {
    var x := Solve(input, solve).value;
    assert |x| / 2 == |input.refs|;
    InterleaveDeinterleave(x);
  }

  /** Whether `solve` is consulted at all does not matter for an invalid input. */
  lemma RejectsBeforeSolving(input: Input, solve: Qp -> Option<Workspace>, other: Qp -> Option<Workspace>)
    requires AnswersInSize(solve) && AnswersInSize(other) && !Valid(input)
    ensures Optimize(input, solve) == Optimize(input, other)
    ensures Optimize(input, solve).Failure?
  {
  }

  /** When the solver returns the warm start unchanged, the smoother returns
      the reference path. */
  lemma WarmStartReturnsReference(input: Input, solve: Qp -> Option<Workspace>)
    requires AnswersInSize(solve) && Valid(input)
    requires solve(Formulate(input)) == Some(Workspace(1, Some(Formulate(input).warmStart)))
    ensures Optimize(input, solve) == Success(Coordinates(Xs(input.refs), Ys(input.refs)))
  {
    var x := Formulate(input).warmStart;
    assert Solve(input, solve) == Success(x);
    assert x == SetPrimalWarmStart(input.refs);
    assert Deinterleave(x, |input.refs|) == Coordinates(Xs(input.refs), Ys(input.refs));
  }

  /** A solution that satisfies the box constraints yields a path whose every
      point lies within its half-widths of its reference point. */
  lemma FeasibleOutputStaysNearReference(input: Input, solve: Qp -> Option<Workspace>, out: Coordinates)
    requires AnswersInSize(solve) && Optimize(input, solve) == Success(out)
    requires Valid(input)
    requires InBox(Solve(input, solve).value, Formulate(input).lower, Formulate(input).upper)
    ensures forall i :: 0 <= i < |input.refs| ==>
              && input.refs[i].x - input.xBounds[i] <= out.xs[i] <= input.refs[i].x + input.xBounds[i]
              && input.refs[i].y - input.yBounds[i] <= out.ys[i] <= input.refs[i].y + input.yBounds[i]
  {
    var x := Solve(input, solve).value;
    var b := BoxBounds(input.refs, input.xBounds, input.yBounds);
    assert Formulate(input).lower == b.lower && Formulate(input).upper == b.upper;
    BoxMeansNeighbourhood(input.refs, input.xBounds, input.yBounds, x);
  }

  /** With every half-width zero, a feasible solution is the reference path itself. */
  lemma ZeroBoundsReturnReference(input: Input, solve: Qp -> Option<Workspace>, out: Coordinates)
    requires AnswersInSize(solve) && Optimize(input, solve) == Success(out)
    requires Valid(input)
    requires forall i :: 0 <= i < |input.xBounds| ==> input.xBounds[i] == 0.0
    requires forall i :: 0 <= i < |input.yBounds| ==> input.yBounds[i] == 0.0
    requires InBox(Solve(input, solve).value, Formulate(input).lower, Formulate(input).upper)
    ensures out == Coordinates(Xs(input.refs), Ys(input.refs))
  {
    FeasibleOutputStaysNearReference(input, solve, out);
    assert out.xs == Xs(input.refs) by {
      forall i | 0 <= i < |input.refs|
        ensures out.xs[i] == input.refs[i].x
      {
        assert input.xBounds[i] == 0.0;
      }
    }
    assert out.ys == Ys(input.refs) by {
      forall i | 0 <= i < |input.refs|
        ensures out.ys[i] == input.refs[i].y
      {
        assert input.yBounds[i] == 0.0;
      }
    }
  }
}
