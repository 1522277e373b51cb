/** The quadratic term (kernel) P of the smoothing QP.

    The objective over N points z0 .. z(N-1) (each axis separately) is
      w_f * sum_{i=1}^{N-2} (z(i-1) - 2 z(i) + z(i+1))^2
    + w_l * sum_{i=0}^{N-2} (z(i+1) - z(i))^2
    + w_r * sum_i (z(i) - ref(i))^2,
    so its Hessian is 2 (w_f D2^T D2 + w_l D1^T D1 + w_r I), with D2 and D1 the
    second- and first-difference operators. The solver minimises 1/2 x^T P x +
    q^T x and is given the upper triangle of P only, as a CSC matrix over the
    interleaved decision vector (x0, y0, x1, y1, ...). Column c = 2p + a belongs
    to point p on axis a and has stored entries at rows c - 4, c - 2 and c (two
    points back, one point back, the point itself, same axis).

    Two descriptions of that matrix live here:
    - the source's construction: five loops appending hard-coded coefficients
      to per-column lists (first point, second point, interior points, second
      to last point, last point), counting the columns they fill, then
      flattening the lists to CSC with every coefficient doubled
      (`KernelEmissions`, `Fill`, `CalculateKernel`);
    - a reference derived from the stencils: each coefficient counts the rows
      of D2 and D1 that touch both points (`DiagonalCoefficient`,
      `OneBackCoefficient`, `TwoBackCoefficient`, `StencilColumn`,
      `KernelMatrix`).
    For N >= 4 they coincide; for N = 3 the source's loops overlap and its
    column-count check fails, while the stencil reference is well defined. */
module Kernel {
  import opened Csc

  /** The three objective weights: smoothness (fem pose deviation), path length
      and reference deviation. */
  datatype Weights = Weights(femPose: real, pathLength: real, refDeviation: real)

  predicate NonNegative(w: Weights) {
    w.femPose >= 0.0 && w.pathLength >= 0.0 && w.refDeviation >= 0.0
  }

  // ---------------------------------------------------------------------------
  // Reference: coefficients derived from the difference stencils
  // ---------------------------------------------------------------------------

  /** Row i of the second-difference operator, z(i-1) - 2 z(i) + z(i+1), exists. */
  predicate HasSecondDifference(n: nat, i: int) {
    1 <= i <= n - 2
  }

  /** Row i of the first-difference operator, z(i+1) - z(i), exists. */
  predicate HasFirstDifference(n: nat, i: int) {
    0 <= i <= n - 2
  }

  /** `x` when the stencil row `b` speaks of exists, else nothing. */
  function When(b: bool, x: real): real {
    if b then x else 0.0
  }

  /** Entry (p, p) of w_f D2^T D2 + w_l D1^T D1 + w_r I: point p has weight 1 in
      the second-difference rows p - 1 and p + 1 and weight -2 in row p, and
      weight 1 in the two first-difference rows that touch it. */
  function DiagonalCoefficient(n: nat, w: Weights, p: nat): real {
    When(HasSecondDifference(n, p - 1), w.femPose)
    + When(HasSecondDifference(n, p), 4.0 * w.femPose)
    + When(HasSecondDifference(n, p + 1), w.femPose)
    + When(HasFirstDifference(n, p - 1), w.pathLength)
    + When(HasFirstDifference(n, p), w.pathLength)
    + w.refDeviation
  }

  /** Entry (p - 1, p): the second-difference rows p - 1 and p each pair a 1
      with a -2; the first-difference row p - 1 pairs a -1 with a 1. */
  function OneBackCoefficient(n: nat, w: Weights, p: nat): real {
    When(HasSecondDifference(n, p - 1), -2.0 * w.femPose)
    + When(HasSecondDifference(n, p), -2.0 * w.femPose)
    + When(HasFirstDifference(n, p - 1), -w.pathLength)
  }

  /** Entry (p - 2, p): only the second-difference row p - 1 touches both. */
  function TwoBackCoefficient(n: nat, w: Weights, p: nat): real {
    When(HasSecondDifference(n, p - 1), w.femPose)
  }

  /** Upper-triangle column c of the Hessian's coefficients (before doubling),
      by increasing row: two points back, one point back, diagonal. */
  function StencilColumn(n: nat, w: Weights, c: nat): seq<Slot>
    requires c < 2 * n
  {
    var p := c / 2;
    (if p >= 2 then [Slot(c - 4, TwoBackCoefficient(n, w, p))] else [])
    + (if p >= 1 then [Slot(c - 2, OneBackCoefficient(n, w, p))] else [])
    + [Slot(c, DiagonalCoefficient(n, w, p))]
  }

  /** The stored values are twice the coefficients (the solver's 1/2 x^T P x). */
  function DoubleValues(col: seq<Slot>): (d: seq<Slot>)
    ensures |d| == |col|
    ensures forall j :: 0 <= j < |col| ==> d[j] == Slot(col[j].row, col[j].value * 2.0)
  {
    seq(|col|, j requires 0 <= j < |col| => Slot(col[j].row, col[j].value * 2.0))
  }

  function KernelColumns(n: nat, w: Weights): (cols: seq<seq<Slot>>)
    ensures |cols| == 2 * n
    ensures forall c :: 0 <= c < 2 * n ==> cols[c] == DoubleValues(StencilColumn(n, w, c))
  {
    seq(2 * n, c requires 0 <= c < 2 * n => DoubleValues(StencilColumn(n, w, c)))
  }

  /** The kernel for an N-point path, N >= 3: the upper triangle of
      2 (w_f D2^T D2 + w_l D1^T D1 + w_r I) over the interleaved variables. */
  function KernelMatrix(n: nat, w: Weights): (m: Matrix)
    requires n >= 3
    ensures WellFormed(m, 2 * n)
    ensures RowsBelow(m, 2 * n)
  {
    KernelColumnRows(n, w);
    PackRowsBelow(KernelColumns(n, w), 2 * n);
    Pack(KernelColumns(n, w))
  }

  lemma KernelColumnRows(n: nat, w: Weights)
    requires n >= 3
    ensures forall c, j :: 0 <= c < 2 * n && 0 <= j < |KernelColumns(n, w)[c]| ==>
              c % 2 == KernelColumns(n, w)[c][j].row % 2 && 0 <= KernelColumns(n, w)[c][j].row <= c
  {
  }

  // ---------------------------------------------------------------------------
  // The source's construction
  // ---------------------------------------------------------------------------

  /** Which of the five loops of the kernel builder fills a point's columns. */
  datatype PointKind = FirstPoint | SecondPoint | InteriorPoint | SecondToLastPoint | LastPoint

  /** The (row, coefficient) pairs one loop appends to column `col`, as hard-coded. */
  function PointColumn(kind: PointKind, w: Weights, col: int): seq<Slot> {
    var f := w.femPose;
    var l := w.pathLength;
    var r := w.refDeviation;
    match kind
    case FirstPoint => [Slot(col, f + l + r)]
    case SecondPoint => [Slot(col - 2, -2.0 * f - l), Slot(col, 5.0 * f + 2.0 * l + r)]
    case InteriorPoint => [Slot(col - 4, f), Slot(col - 2, -4.0 * f - l), Slot(col, 6.0 * f + 2.0 * l + r)]
    case SecondToLastPoint => [Slot(col - 4, f), Slot(col - 2, -4.0 * f - l), Slot(col, 5.0 * f + 2.0 * l + r)]
    case LastPoint => [Slot(col - 4, f), Slot(col - 2, -2.0 * f - l), Slot(col, f + l + r)]
  }

  /** One pass of a loop body: the pairs appended to one column, counted as one
      filled column. */
  datatype Emission = Emission(col: int, slots: seq<Slot>)

  /** A loop over the two columns `start` and `start + 1` of one point. */
  function PointEmissions(kind: PointKind, w: Weights, start: int): seq<Emission> {
    [Emission(start, PointColumn(kind, w, start)), Emission(start + 1, PointColumn(kind, w, start + 1))]
  }

  /** The interior loop over points `p .. stop - 1`, point p owning columns
      `p << 1` and `(p << 1) + 1`. */
  function InteriorEmissions(w: Weights, p: int, stop: int): (ems: seq<Emission>)
    ensures |ems| == if p < stop then 2 * (stop - p) else 0
    decreases stop - p
  {
    if p >= stop then []
    else PointEmissions(InteriorPoint, w, 2 * p) + InteriorEmissions(w, p + 1, stop)
  }

  /** All column fills of the kernel builder in execution order; its column
      counter ends at the length of this list. The interior loop is bounded by
      the point count, the two tail loops by the variable count. */
  function KernelEmissions(numPoints: int, numVariables: int, w: Weights): (ems: seq<Emission>)
    ensures |ems| == 8 + (if numPoints > 4 then 2 * (numPoints - 4) else 0)
    ensures ems[0].col == 0 && ems[1].col == 1 && ems[2].col == 2 && ems[3].col == 3
    ensures ems[|ems| - 2].col == numVariables - 2 && ems[|ems| - 1].col == numVariables - 1
  {
    PointEmissions(FirstPoint, w, 0)
    + PointEmissions(SecondPoint, w, 2)
    + InteriorEmissions(w, 2, numPoints - 2)
    + PointEmissions(SecondToLastPoint, w, numVariables - 4)
    + PointEmissions(LastPoint, w, numVariables - 2)
  }

  /** The per-column lists after all fills: each fill appends to its column. */
  function Fill(ems: seq<Emission>, n: nat): (cols: seq<seq<Slot>>)
    requires forall i :: 0 <= i < |ems| ==> 0 <= ems[i].col < n
    ensures |cols| == n
    decreases |ems|
  {
    if |ems| == 0 then seq(n, _ => [])
    else
      var cols := Fill(ems[..|ems| - 1], n);
      var e := ems[|ems| - 1];
      cols[e.col := cols[e.col] + e.slots]
  }

  /** Outcome of the kernel builder: a matrix, or one of its two fatal checks. */
  datatype KernelOutcome =
    | Built(p: Matrix)
    | TooFewVariables              // the variable count is not above 4
    | ColumnCountMismatch(colNum: int)  // the loops did not fill exactly one column per variable

  /** The kernel builder as written, given the point count and a variable count
      that is twice it. It refuses variable counts up to 4; otherwise it runs the
      five loops and refuses unless they filled exactly one column per variable.
      It succeeds exactly for four or more points, and then yields the
      stencil-derived kernel. */
  function CalculateKernel(numPoints: nat, numVariables: nat, w: Weights): (r: KernelOutcome)
    requires numVariables == 2 * numPoints
    ensures r.Built? <==> numPoints >= 4
    ensures r == TooFewVariables <==> numPoints <= 2
    ensures r.ColumnCountMismatch? <==> numPoints == 3
    ensures r.Built? ==> r.p == KernelMatrix(numPoints, w)
  {
    if numVariables <= 4 then TooFewVariables
    else
      var colNum := |KernelEmissions(numPoints, numVariables, w)|;
      EmissionCount(numPoints, w);
      if colNum != numVariables then ColumnCountMismatch(colNum)
      else
        SourceKernelColumns(numPoints, w);
        Built(Pack(DoubledColumns(SourceColumns(numPoints, w))))
  }

  /** The column lists the five loops leave behind for an N-point path. */
  function SourceColumns(n: nat, w: Weights): (cols: seq<seq<Slot>>)
    requires n >= 3
    ensures |cols| == 2 * n
  {
    EmissionColumnsInRange(n, w);
    Fill(KernelEmissions(n, 2 * n, w), 2 * n)
  }

  /** The flattening step doubles every stored coefficient. */
  function DoubledColumns(cols: seq<seq<Slot>>): (d: seq<seq<Slot>>)
    ensures |d| == |cols| && forall c :: 0 <= c < |cols| ==> d[c] == DoubleValues(cols[c])
  {
    seq(|cols|, c requires 0 <= c < |cols| => DoubleValues(cols[c]))
  }

  lemma SourceKernelColumns(n: nat, w: Weights)
    requires n >= 4
    ensures DoubledColumns(SourceColumns(n, w)) == KernelColumns(n, w)
  {
    SourceColumnsMatchStencil(n, w);
  }

  // ---------------------------------------------------------------------------
  // Column bookkeeping of the loops
  // ---------------------------------------------------------------------------

  lemma {:induction false} InteriorEmissionAt(w: Weights, p: int, stop: int, i: nat)
    requires p < stop && i < 2 * (stop - p)
    ensures InteriorEmissions(w, p, stop)[i]
         == Emission(2 * p + i, PointColumn(InteriorPoint, w, 2 * p + i))
    decreases stop - p
  {
    if i >= 2 {
      InteriorEmissionAt(w, p + 1, stop, i - 2);
    }
  }

  /** For N >= 3 every fill targets a column in 0 .. 2N - 1. */
  lemma EmissionColumnsInRange(n: nat, w: Weights)
    requires n >= 3
    ensures forall i :: 0 <= i < |KernelEmissions(n, 2 * n, w)| ==>
              0 <= KernelEmissions(n, 2 * n, w)[i].col < 2 * n
  {
    var ems := KernelEmissions(n, 2 * n, w);
    var interior := InteriorEmissions(w, 2, n - 2);
    forall i | 0 <= i < |ems|
      ensures 0 <= ems[i].col < 2 * n
    {
      if 4 <= i < 4 + |interior| {
        InteriorEmissionAt(w, 2, n - 2, i - 4);
        assert ems[i] == interior[i - 4];
      }
    }
  }

  /** The column counter: 2N for N >= 4, but 8 for N = 3. */
  lemma EmissionCount(n: nat, w: Weights)
    requires n >= 3
    ensures |KernelEmissions(n, 2 * n, w)| == if n == 3 then 8 else 2 * n
  {
  }

  /** For four or more points the loops fill 2N columns whatever variable count
      the builder was sized with: the interior loop is bounded by the point
      count and the two tail loops always make four fills. Any count other
      than 2N therefore fails the final column check. */
  lemma CountIgnoresVariables(numPoints: nat, numVariables: int, w: Weights)
    requires numPoints >= 4
    ensures |KernelEmissions(numPoints, numVariables, w)| == 2 * numPoints
  {
  }

  /** Which loop fills the columns of point p of an N-point path, N >= 4. */
  function KindOf(n: nat, p: nat): PointKind {
    if p == 0 then FirstPoint
    else if p == 1 then SecondPoint
    else if p < n - 2 then InteriorPoint
    else if p == n - 2 then SecondToLastPoint
    else LastPoint
  }

  /** For N >= 4 the c-th fill is the one for column c, by the loop of its point. */
  lemma EmissionAt(n: nat, w: Weights, c: nat)
    requires n >= 4 && c < 2 * n
    ensures KernelEmissions(n, 2 * n, w)[c] == Emission(c, PointColumn(KindOf(n, c / 2), w, c))
  {
    var ems := KernelEmissions(n, 2 * n, w);
    var interior := InteriorEmissions(w, 2, n - 2);
    if 4 <= c < 4 + |interior| {
      InteriorEmissionAt(w, 2, n - 2, c - 4);
      assert ems[c] == interior[c - 4];
    }
  }

  /** Filling a column list with fills that target columns 0, 1, 2, ... in turn
      leaves each filled column holding just its own fill. */
  lemma {:induction false} FillInOrder(ems: seq<Emission>, n: nat)
    requires |ems| <= n
    requires forall i :: 0 <= i < |ems| ==> ems[i].col == i
    ensures forall c :: 0 <= c < n ==> Fill(ems, n)[c] == if c < |ems| then ems[c].slots else []
    decreases |ems|
  {
    if |ems| > 0 {
      FillInOrder(ems[..|ems| - 1], n);
    }
  }

  /** The hard-coded coefficients of each loop are the stencil coefficients of
      the points that loop serves, for every path of four or more points. */
  lemma SourceCoefficientsMatchStencil(n: nat, w: Weights, c: nat)
    requires n >= 4 && c < 2 * n
    ensures PointColumn(KindOf(n, c / 2), w, c) == StencilColumn(n, w, c)
  {
  }

  /** For N >= 4 the source's column lists are exactly the stencil columns. */
  lemma SourceColumnsMatchStencil(n: nat, w: Weights)
    requires n >= 4
    ensures forall c :: 0 <= c < 2 * n ==> SourceColumns(n, w)[c] == StencilColumn(n, w, c)
  {
    EmissionColumnsInRange(n, w);
    var ems := KernelEmissions(n, 2 * n, w);
    EmissionCount(n, w);
    forall i | 0 <= i < |ems|
      ensures ems[i].col == i
    {
      EmissionAt(n, w, i);
    }
    FillInOrder(ems, 2 * n);
    forall c | 0 <= c < 2 * n
      ensures Fill(ems, 2 * n)[c] == StencilColumn(n, w, c)
    {
      EmissionAt(n, w, c);
      SourceCoefficientsMatchStencil(n, w, c);
    }
  }

  // ---------------------------------------------------------------------------
  // Shape of the kernel
  // ---------------------------------------------------------------------------

  /** Column c of the kernel holds the doubled stencil coefficients of its point. */
  lemma KernelColumn(n: nat, w: Weights, c: nat)
    requires n >= 3 && c < 2 * n
    ensures Column(KernelMatrix(n, w), 2 * n, c) == DoubleValues(StencilColumn(n, w, c))
  {
    PackColumn(KernelColumns(n, w), c);
  }

  lemma {:induction false} KernelSlotCountPrefix(n: nat, w: Weights, k: nat)
    requires k <= 2 * n
    ensures SlotCount(KernelColumns(n, w)[..k])
         == if k <= 2 then k else if k <= 4 then 2 * k - 2 else 3 * k - 6
  {
    var cols := KernelColumns(n, w);
    if k > 0 {
      KernelSlotCountPrefix(n, w, k - 1);
      assert cols[..k][..k - 1] == cols[..k - 1];
    }
  }

  /** The CSC kernel of an N-point path (N >= 3) has 2N non-empty columns and
      6N - 6 stored values. */
  lemma KernelSize(n: nat, w: Weights)
    requires n >= 3
    ensures StrictlyIncreasingPointers(KernelMatrix(n, w), 2 * n)
    ensures |KernelMatrix(n, w).data| == |KernelMatrix(n, w).indices| == 6 * n - 6
  {
    var m := KernelMatrix(n, w);
    var cols := KernelColumns(n, w);
    forall c | 0 <= c < 2 * n
      ensures m.indptr[c] < m.indptr[c + 1]
    {
      KernelColumn(n, w, c);
    }
    KernelSlotCountPrefix(n, w, 2 * n);
    assert cols[..2 * n] == cols;
  }

  /** One kernel column: rows c - 4, c - 2, c as far as the point has
      predecessors, so strictly increasing, same axis, diagonal last. */
  lemma KernelColumnLayout(n: nat, w: Weights, c: nat)
    requires n >= 3 && c < 2 * n
    ensures var s := Column(KernelMatrix(n, w), 2 * n, c);
      && |s| == (if c < 2 then 1 else if c < 4 then 2 else 3)
      && (forall j :: 0 <= j < |s| ==> s[j].row == c - 2 * (|s| - 1 - j))
  {
    KernelColumn(n, w, c);
  }

  /** The order facts of one kernel column. */
  lemma KernelColumnOrder(n: nat, w: Weights, c: nat)
    requires n >= 3 && c < 2 * n
    ensures var s := Column(KernelMatrix(n, w), 2 * n, c);
      && (forall j :: 0 <= j < |s| ==> 0 <= s[j].row <= c && s[j].row % 2 == c % 2)
      && (forall j :: 0 < j < |s| ==> s[j - 1].row < s[j].row)
      && |s| > 0 && s[|s| - 1].row == c
  {
    KernelColumnLayout(n, w, c);
    StrideTwoRows(Column(KernelMatrix(n, w), 2 * n, c), c);
  }

  /** Rows spaced two apart and ending at the diagonal `c` are increasing, on
      the axis of `c`, and within 0 .. c when there are at most c / 2 + 1 of them. */
  lemma StrideTwoRows(s: seq<Slot>, c: nat)
    requires 0 < |s| && 2 * (|s| - 1) <= c
    requires forall j :: 0 <= j < |s| ==> s[j].row == c - 2 * (|s| - 1 - j)
    ensures forall j :: 0 <= j < |s| ==> 0 <= s[j].row <= c && s[j].row % 2 == c % 2
    ensures forall j :: 0 < j < |s| ==> s[j - 1].row < s[j].row
    ensures s[|s| - 1].row == c
  {
    forall j | 0 <= j < |s|
      ensures s[j].row % 2 == c % 2
    {
      SameParity(c, |s| - 1 - j);
    }
  }

  lemma SameParity(c: int, k: int)
    ensures (c - 2 * k) % 2 == c % 2
  {
  }

  /** Only the upper triangle is stored, rows strictly increase within a column
      with the diagonal last, and only same-axis variables are coupled. */
  lemma KernelTriangle(n: nat, w: Weights)
    requires n >= 3
    ensures UpperTriangular(KernelMatrix(n, w), 2 * n)
    ensures SortedWithDiagonalLast(KernelMatrix(n, w), 2 * n)
    ensures forall c, j :: 0 <= c < 2 * n && 0 <= j < |Column(KernelMatrix(n, w), 2 * n, c)| ==>
              Column(KernelMatrix(n, w), 2 * n, c)[j].row % 2 == c % 2
  {
    forall c | 0 <= c < 2 * n {
      KernelColumnOrder(n, w, c);
    }
  }

  /** For N >= 4 the stored columns are exactly the source's hard-coded
      coefficients, doubled: column 2p + a is filled by the loop for point p. */
  lemma KernelValues(n: nat, w: Weights, c: nat)
    requires n >= 4 && c < 2 * n
    ensures Column(KernelMatrix(n, w), 2 * n, c) == DoubleValues(PointColumn(KindOf(n, c / 2), w, c))
  {
    KernelColumn(n, w, c);
    SourceCoefficientsMatchStencil(n, w, c);
  }

  /** For three points the five loops overlap: the second-point loop and the
      second-to-last-point loop both fill columns 2 and 3, the counter reaches 8
      against 6 variables, and row index -2 is emitted, so the column-count
      check fails. */
  lemma ThreePointLoopsOverlap(w: Weights)
    ensures |KernelEmissions(3, 6, w)| == 8
    ensures KernelEmissions(3, 6, w)[2].col == 2 && KernelEmissions(3, 6, w)[3].col == 3
    ensures KernelEmissions(3, 6, w)[5].col == 3
    ensures KernelEmissions(3, 6, w)[4].col == 2 && KernelEmissions(3, 6, w)[4].slots[0].row == -2
    ensures CalculateKernel(3, 6, w) == ColumnCountMismatch(8)
  {
  }

}
