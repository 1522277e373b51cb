/** What the QP the smoother hands to the solver means.

    The solver minimises 1/2 x^T P x + q^T x. For the kernel P of an N-point
    path this module proves
      x^T P x == 2 * Cost(x, 0),
    where Cost(x, t) is the smoothing objective
      sum over both axes of
        w_f * sum (z(i-1) - 2 z(i) + z(i+1))^2 + w_l * sum (z(i+1) - z(i))^2
        + w_r * sum (z(i) - t(i))^2
    measured against a target t. Hence P is positive semi-definite whenever
    the weights are non-negative. A linear term of the form q = -2 w_r t then
    makes the QP objective equal to Cost(x, t) minus a constant: the deviation
    penalty pulls towards t. */
module Objective {
  import opened Csc
  import opened Layout
  import opened Kernel
  import opened Constraints

  function Sq(r: real): real {
    r * r
  }

  /** Coordinate of point p on axis a (0 for x, 1 for y) in the decision vector. */
  function Coord(v: seq<real>, p: nat, a: nat): real
    requires a < 2 && 2 * p + a < |v|
  {
    v[2 * p + a]
  }

  /** The smoothness and path-length terms whose last point is p, on axis a:
      the segment ending at p and the second difference centred at p - 1. */
  function ShapeCost(w: Weights, v: seq<real>, p: nat, a: nat): real
    requires a < 2 && 2 * p + a < |v|
  {
    (if p >= 1 then w.pathLength * Sq(Coord(v, p, a) - Coord(v, p - 1, a)) else 0.0)
    + (if p >= 2 then w.femPose * Sq(Coord(v, p - 2, a) - 2.0 * Coord(v, p - 1, a) + Coord(v, p, a)) else 0.0)
  }

  /** All objective terms whose last point is p on axis a, against target t. */
  function AxisCost(w: Weights, v: seq<real>, t: seq<real>, p: nat, a: nat): real
    requires a < 2 && 2 * p + a < |v| && |t| == |v|
  {
    ShapeCost(w, v, p, a) + w.refDeviation * Sq(Coord(v, p, a) - Coord(t, p, a))
  }

  /** All objective terms whose last point is p, both axes, against target t. */
  function PointCost(w: Weights, v: seq<real>, t: seq<real>, p: nat): real
    requires 2 * p + 1 < |v| && |t| == |v|
  {
    AxisCost(w, v, t, p, 0) + AxisCost(w, v, t, p, 1)
  }

  /** The smoothing objective over the first k points against target t. */
  function Cost(w: Weights, v: seq<real>, t: seq<real>, k: nat): real
    requires 2 * k <= |v| && |t| == |v|
  {
    if k == 0 then 0.0 else Cost(w, v, t, k - 1) + PointCost(w, v, t, k - 1)
  }

  function Zeros(n: nat): (z: seq<real>)
    ensures |z| == n && forall i :: 0 <= i < n ==> z[i] == 0.0
  {
    seq(n, _ => 0.0)
  }

  function Ones(n: nat): (o: seq<real>)
    ensures |o| == n && forall i :: 0 <= i < n ==> o[i] == 1.0
  {
    seq(n, _ => 1.0)
  }

  /** Inner product of the first k entries. */
  function Dot(a: seq<real>, b: seq<real>, k: nat): real
    requires k <= |a| && k <= |b|
  {
    if k == 0 then 0.0 else Dot(a, b, k - 1) + a[k - 1] * b[k - 1]
  }

  /** The QP objective 1/2 x^T P x + q^T x of an N-point kernel. */
  function QpObjective(n: nat, w: Weights, q: seq<real>, v: seq<real>): real
    requires n >= 3 && |v| == 2 * n && |q| == 2 * n
  {
    0.5 * QuadForm(KernelMatrix(n, w), 2 * n, v) + Dot(q, v, 2 * n)
  }

  // ---------------------------------------------------------------------------
  // Column by column
  // ---------------------------------------------------------------------------

  /** The contribution of column 2p + a of the kernel, halved. */
  function ColumnCost(n: nat, w: Weights, v: seq<real>, p: nat, a: nat): real
    requires a < 2 && 2 * p + a < |v|
  {
    DiagonalCoefficient(n, w, p) * Sq(Coord(v, p, a))
    + (if p >= 1 then 2.0 * OneBackCoefficient(n, w, p) * Coord(v, p - 1, a) * Coord(v, p, a) else 0.0)
    + (if p >= 2 then 2.0 * TwoBackCoefficient(n, w, p) * Coord(v, p - 2, a) * Coord(v, p, a) else 0.0)
  }

  /** The form contribution of kernel column c. */
  function KernelSlotsForm(n: nat, w: Weights, v: seq<real>, c: nat): real
    requires n >= 3 && c < 2 * n && |v| == 2 * n
  {
    KernelColumnRows(n, w);
    SlotsForm(KernelColumns(n, w)[c], c, v)
  }

  /** The form contribution of the first k kernel columns. */
  function KernelColumnsForm(n: nat, w: Weights, v: seq<real>, k: nat): real
    requires n >= 3 && k <= 2 * n && |v| == 2 * n
  {
    KernelColumnRows(n, w);
    ColumnsForm(KernelColumns(n, w), v, k)
  }

  lemma SlotsFormOne(c: nat, d: real, v: seq<real>)
    requires c < |v|
    ensures SlotsForm([Slot(c, d)], c, v) == d * v[c] * v[c]
  {
    assert [Slot(c, d)][1..] == [];
  }

  lemma SlotsFormCons(r: nat, o: real, rest: seq<Slot>, c: nat, v: seq<real>)
    requires r < c < |v|
    requires forall j :: 0 <= j < |rest| ==> 0 <= rest[j].row < |v|
    ensures SlotsForm([Slot(r, o)] + rest, c, v) == 2.0 * o * v[r] * v[c] + SlotsForm(rest, c, v)
  {
    assert ([Slot(r, o)] + rest)[1..] == rest;
  }

  /** Kernel column c, slot by slot. */
  lemma KernelColumnSlots(n: nat, w: Weights, c: nat)
    requires n >= 3 && c < 2 * n
    ensures var p := c / 2;
      KernelColumns(n, w)[c]
      == (if p >= 2 then [Slot(c - 4, TwoBackCoefficient(n, w, p) * 2.0)] else [])
         + (if p >= 1 then [Slot(c - 2, OneBackCoefficient(n, w, p) * 2.0)] else [])
         + [Slot(c, DiagonalCoefficient(n, w, p) * 2.0)]
  {
  }

  lemma TwoSlotArithmetic(d: real, o: real, z1: real, zc: real)
    ensures 2.0 * (o * 2.0) * z1 * zc + d * 2.0 * zc * zc == 2.0 * (d * zc * zc + 2.0 * o * z1 * zc)
  {
  }

  lemma ThreeSlotArithmetic(d: real, o: real, tb: real, z0: real, z1: real, zc: real)
    ensures 2.0 * (tb * 2.0) * z0 * zc + (2.0 * (o * 2.0) * z1 * zc + d * 2.0 * zc * zc)
         == 2.0 * (d * zc * zc + 2.0 * o * z1 * zc + 2.0 * tb * z0 * zc)
  {
  }

  /** The form of a column holding the diagonal and the entry two rows up. */
  lemma TwoSlotsForm(c: nat, d: real, o: real, v: seq<real>)
    requires 2 <= c < |v|
    ensures SlotsForm([Slot(c - 2, o * 2.0), Slot(c, d * 2.0)], c, v)
         == 2.0 * (d * v[c] * v[c] + 2.0 * o * v[c - 2] * v[c])
  {
    var last := [Slot(c, d * 2.0)];
    SlotsFormOne(c, d * 2.0, v);
    assert [Slot(c - 2, o * 2.0), Slot(c, d * 2.0)] == [Slot(c - 2, o * 2.0)] + last;
    SlotsFormCons(c - 2, o * 2.0, last, c, v);
    TwoSlotArithmetic(d, o, v[c - 2], v[c]);
  }

  /** The form of a column holding the diagonal and the entries two and four rows up. */
  lemma ThreeSlotsForm(c: nat, d: real, o: real, tb: real, v: seq<real>)
    requires 4 <= c < |v|
    ensures SlotsForm([Slot(c - 4, tb * 2.0), Slot(c - 2, o * 2.0), Slot(c, d * 2.0)], c, v)
         == 2.0 * (d * v[c] * v[c] + 2.0 * o * v[c - 2] * v[c] + 2.0 * tb * v[c - 4] * v[c])
  {
    var last := [Slot(c, d * 2.0)];
    var two := [Slot(c - 2, o * 2.0)] + last;
    SlotsFormOne(c, d * 2.0, v);
    SlotsFormCons(c - 2, o * 2.0, last, c, v);
    assert [Slot(c - 4, tb * 2.0), Slot(c - 2, o * 2.0), Slot(c, d * 2.0)] == [Slot(c - 4, tb * 2.0)] + two;
    SlotsFormCons(c - 4, tb * 2.0, two, c, v);
    ThreeSlotArithmetic(d, o, tb, v[c - 4], v[c - 2], v[c]);
  }

  lemma ColumnForm(n: nat, w: Weights, v: seq<real>, p: nat, a: nat)
    requires n >= 3 && p < n && a < 2 && |v| == 2 * n
    ensures KernelSlotsForm(n, w, v, 2 * p + a) == 2.0 * ColumnCost(n, w, v, p, a)
  {
    if p == 0 {
      FirstColumnForm(n, w, v, a);
    } else if p == 1 {
      SecondColumnForm(n, w, v, a);
    } else {
      LaterColumnForm(n, w, v, p, a);
    }
  }

  lemma FirstColumnForm(n: nat, w: Weights, v: seq<real>, a: nat)
    requires n >= 3 && a < 2 && |v| == 2 * n
    ensures KernelSlotsForm(n, w, v, a) == 2.0 * ColumnCost(n, w, v, 0, a)
  {
    var d := DiagonalCoefficient(n, w, 0);
    KernelColumnSlots(n, w, a);
    assert KernelColumns(n, w)[a] == [Slot(a, d * 2.0)];
    SlotsFormOne(a, d * 2.0, v);
    assert ColumnCost(n, w, v, 0, a) == d * Sq(v[a]);
    Doubled(KernelSlotsForm(n, w, v, a), ColumnCost(n, w, v, 0, a), d * v[a] * v[a], d * Sq(v[a]));
  }

  lemma SecondColumnForm(n: nat, w: Weights, v: seq<real>, a: nat)
    requires n >= 3 && a < 2 && |v| == 2 * n
    ensures KernelSlotsForm(n, w, v, 2 + a) == 2.0 * ColumnCost(n, w, v, 1, a)
  {
    var c := 2 + a;
    var d, o := DiagonalCoefficient(n, w, 1), OneBackCoefficient(n, w, 1);
    KernelColumnSlots(n, w, c);
    assert KernelColumns(n, w)[c] == [Slot(c - 2, o * 2.0), Slot(c, d * 2.0)];
    TwoSlotsForm(c, d, o, v);
    assert ColumnCost(n, w, v, 1, a) == d * Sq(v[c]) + 2.0 * o * v[c - 2] * v[c];
    Doubled(KernelSlotsForm(n, w, v, c), ColumnCost(n, w, v, 1, a),
            d * v[c] * v[c] + 2.0 * o * v[c - 2] * v[c], d * Sq(v[c]) + 2.0 * o * v[c - 2] * v[c]);
  }

  lemma LaterColumnForm(n: nat, w: Weights, v: seq<real>, p: nat, a: nat)
    requires n >= 3 && 2 <= p < n && a < 2 && |v| == 2 * n
    ensures KernelSlotsForm(n, w, v, 2 * p + a) == 2.0 * ColumnCost(n, w, v, p, a)
  {
    var c := 2 * p + a;
    var d, o, tb := DiagonalCoefficient(n, w, p), OneBackCoefficient(n, w, p), TwoBackCoefficient(n, w, p);
    KernelColumnSlots(n, w, c);
    assert KernelColumns(n, w)[c] == [Slot(c - 4, tb * 2.0), Slot(c - 2, o * 2.0), Slot(c, d * 2.0)];
    ThreeSlotsForm(c, d, o, tb, v);
    assert ColumnCost(n, w, v, p, a) == d * Sq(v[c]) + 2.0 * o * v[c - 2] * v[c] + 2.0 * tb * v[c - 4] * v[c];
    Doubled(KernelSlotsForm(n, w, v, c), ColumnCost(n, w, v, p, a),
            d * v[c] * v[c] + 2.0 * o * v[c - 2] * v[c] + 2.0 * tb * v[c - 4] * v[c],
            d * Sq(v[c]) + 2.0 * o * v[c - 2] * v[c] + 2.0 * tb * v[c - 4] * v[c]);
  }

  /** A form that is twice an expression is twice anything equal to it.
      A separate lemma so that the caller applies this step to named
      quantities instead of re-deriving it over the unfolded costs. */
  lemma Doubled(form: real, cost: real, e: real, e': real)
    requires form == 2.0 * e && cost == e' && e == e'
    ensures form == 2.0 * cost
  {
  }

  /** The halved kernel form summed over the first k points. */
  function StencilCost(n: nat, w: Weights, v: seq<real>, k: nat): real
    requires k <= n && |v| == 2 * n
  {
    if k == 0 then 0.0
    else StencilCost(n, w, v, k - 1) + ColumnCost(n, w, v, k - 1, 0) + ColumnCost(n, w, v, k - 1, 1)
  }

  lemma ColumnsFormByPoints(n: nat, w: Weights, v: seq<real>, k: nat)
    requires n >= 3 && k <= n && |v| == 2 * n
    ensures KernelColumnsForm(n, w, v, 2 * k) == 2.0 * StencilCost(n, w, v, k)
  {
    var cols, costs := KernelColumns(n, w), PointColumnCosts(n, w, v);
    KernelColumnRows(n, w);
    forall p | 0 <= p < n
      ensures SlotsForm(cols[2 * p], 2 * p, v) + SlotsForm(cols[2 * p + 1], 2 * p + 1, v) == 2.0 * costs[p]
    {
      PointPairForm(n, w, v, p);
    }
    PairedColumnsForm(cols, v, costs, k);
    StencilTotal(n, w, v, k);
  }

  /** The two columns of point p together form twice its column costs. */
  lemma PointPairForm(n: nat, w: Weights, v: seq<real>, p: nat)
    requires n >= 3 && p < n && |v| == 2 * n
    ensures KernelSlotsForm(n, w, v, 2 * p) + KernelSlotsForm(n, w, v, 2 * p + 1)
         == 2.0 * PointColumnCosts(n, w, v)[p]
  {
    ColumnForm(n, w, v, p, 0);
    ColumnForm(n, w, v, p, 1);
    PairDoubled(KernelSlotsForm(n, w, v, 2 * p), KernelSlotsForm(n, w, v, 2 * p + 1),
                ColumnCost(n, w, v, p, 0), ColumnCost(n, w, v, p, 1), PointColumnCosts(n, w, v)[p]);
  }

  /** The two columns of one point together are twice the point's cost.
      A separate lemma so that the caller applies this step to named
      quantities instead of re-deriving it over the unfolded costs. */
  lemma PairDoubled(f0: real, f1: real, c0: real, c1: real, c: real)
    requires f0 == 2.0 * c0 && f1 == 2.0 * c1 && c == c0 + c1
    ensures f0 + f1 == 2.0 * c
  {
  }

  /** The halved column costs of each point, both axes together. */
  function PointColumnCosts(n: nat, w: Weights, v: seq<real>): (costs: seq<real>)
    requires |v| == 2 * n
    ensures |costs| == n
    ensures forall p :: 0 <= p < n ==> costs[p] == ColumnCost(n, w, v, p, 0) + ColumnCost(n, w, v, p, 1)
  {
    seq(n, p requires 0 <= p < n => ColumnCost(n, w, v, p, 0) + ColumnCost(n, w, v, p, 1))
  }

  /** Sum of the first k entries. */
  function Total(s: seq<real>, k: nat): real
    requires k <= |s|
  {
    if k == 0 then 0.0 else Total(s, k - 1) + s[k - 1]
  }

  lemma {:induction false} StencilTotal(n: nat, w: Weights, v: seq<real>, k: nat)
    requires k <= n && |v| == 2 * n
    ensures StencilCost(n, w, v, k) == Total(PointColumnCosts(n, w, v), k)
  {
    if k > 0 {
      StencilTotal(n, w, v, k - 1);
    }
  }

  /** When the columns come in pairs whose forms add up to twice a cost, the
      form of the first k pairs is twice the total of the first k costs. */
  lemma {:induction false} PairedColumnsForm(cols: seq<seq<Slot>>, x: seq<real>, costs: seq<real>, k: nat)
    requires |cols| == |x| == 2 * |costs| && k <= |costs|
    requires forall c, j :: 0 <= c < |cols| && 0 <= j < |cols[c]| ==> 0 <= cols[c][j].row < |x|
    requires forall p :: 0 <= p < |costs| ==>
               SlotsForm(cols[2 * p], 2 * p, x) + SlotsForm(cols[2 * p + 1], 2 * p + 1, x) == 2.0 * costs[p]
    ensures ColumnsForm(cols, x, 2 * k) == 2.0 * Total(costs, k)
  {
    if k > 0 {
      var p := k - 1;
      PairedColumnsForm(cols, x, costs, p);
      assert ColumnsForm(cols, x, 2 * p + 1) == ColumnsForm(cols, x, 2 * p) + SlotsForm(cols[2 * p], 2 * p, x);
      assert ColumnsForm(cols, x, 2 * k) == ColumnsForm(cols, x, 2 * p + 1) + SlotsForm(cols[2 * p + 1], 2 * p + 1, x);
    }
  }

  // ---------------------------------------------------------------------------
  // Polynomial identities behind the stencil coefficients
  // ---------------------------------------------------------------------------

  /** What the first two points' columns owe beyond their own cost terms: the
      parts of the next second differences they already account for. */
  function Carry(f: real, l: real, a: real, b: real): real {
    f * Sq(a - 2.0 * b) + (f + l) * Sq(b)
  }

  // ---------------------------------------------------------------------------
  // The kernel form is twice the quadratic part of the objective
  // ---------------------------------------------------------------------------

  /** The carry after the first k points on axis a. */
  function AxisCarry(w: Weights, v: seq<real>, k: nat, a: nat): real
    requires 2 <= k && a < 2 && 2 * k <= |v|
  {
    Carry(w.femPose, w.pathLength, Coord(v, k - 2, a), Coord(v, k - 1, a))
  }

  function PrefixCarry(w: Weights, v: seq<real>, k: nat): real
    requires 2 <= k && 2 * k <= |v|
  {
    AxisCarry(w, v, k, 0) + AxisCarry(w, v, k, 1)
  }

  lemma FirstTwoColumns(n: nat, w: Weights, v: seq<real>, a: nat)
    requires n >= 4 && a < 2 && |v| == 2 * n
    ensures ColumnCost(n, w, v, 0, a) + ColumnCost(n, w, v, 1, a)
         == AxisCost(w, v, Zeros(2 * n), 0, a) + AxisCost(w, v, Zeros(2 * n), 1, a) + AxisCarry(w, v, 2, a)
  {
    var o := Zeros(2 * n);
    assert Coord(o, 0, a) == 0.0 && Coord(o, 1, a) == 0.0;
    FirstTwoPointColumns(w.femPose, w.pathLength, w.refDeviation,
                         DiagonalCoefficient(n, w, 0), DiagonalCoefficient(n, w, 1), OneBackCoefficient(n, w, 1),
                         Coord(v, 0, a), Coord(v, 1, a), Coord(o, 0, a), Coord(o, 1, a));
  }

  lemma InteriorColumn(n: nat, w: Weights, v: seq<real>, p: nat, a: nat)
    requires 2 <= p <= n - 3 && a < 2 && |v| == 2 * n
    ensures AxisCarry(w, v, p, a) + ColumnCost(n, w, v, p, a)
         == AxisCost(w, v, Zeros(2 * n), p, a) + AxisCarry(w, v, p + 1, a)
  {
    var o := Zeros(2 * n);
    assert Coord(o, p, a) == 0.0;
    InteriorPointColumn(w.femPose, w.pathLength, w.refDeviation,
                        DiagonalCoefficient(n, w, p), OneBackCoefficient(n, w, p), TwoBackCoefficient(n, w, p),
                        Coord(v, p - 2, a), Coord(v, p - 1, a), Coord(v, p, a), Coord(o, p, a));
  }

  lemma LastTwoColumns(n: nat, w: Weights, v: seq<real>, a: nat)
    requires n >= 4 && a < 2 && |v| == 2 * n
    ensures AxisCarry(w, v, n - 2, a) + ColumnCost(n, w, v, n - 2, a) + ColumnCost(n, w, v, n - 1, a)
         == AxisCost(w, v, Zeros(2 * n), n - 2, a) + AxisCost(w, v, Zeros(2 * n), n - 1, a)
  {
    LastTwoPointsAt(n, w, v, n - 2, a);
  }

  /** LastTwoColumns with p standing for n - 2, so that every coordinate is
      written the way the costs unfold. */
  lemma LastTwoPointsAt(n: nat, w: Weights, v: seq<real>, p: nat, a: nat)
    requires n >= 4 && p == n - 2 && a < 2 && |v| == 2 * n
    ensures AxisCarry(w, v, p, a) + ColumnCost(n, w, v, p, a) + ColumnCost(n, w, v, p + 1, a)
         == AxisCost(w, v, Zeros(2 * n), p, a) + AxisCost(w, v, Zeros(2 * n), p + 1, a)
  {
    var o := Zeros(2 * n);
    assert Coord(o, p, a) == 0.0 && Coord(o, p + 1, a) == 0.0;
    LastTwoPointColumns(w.femPose, w.pathLength, w.refDeviation,
                        DiagonalCoefficient(n, w, p), OneBackCoefficient(n, w, p), TwoBackCoefficient(n, w, p),
                        DiagonalCoefficient(n, w, p + 1), OneBackCoefficient(n, w, p + 1), TwoBackCoefficient(n, w, p + 1),
                        Coord(v, p - 2, a), Coord(v, p - 1, a), Coord(v, p, a), Coord(v, p + 1, a),
                        Coord(o, p, a), Coord(o, p + 1, a));
  }

  lemma ThreeColumns(w: Weights, v: seq<real>, a: nat)
    requires a < 2 && |v| == 6
    ensures ColumnCost(3, w, v, 0, a) + ColumnCost(3, w, v, 1, a) + ColumnCost(3, w, v, 2, a)
         == AxisCost(w, v, Zeros(6), 0, a) + AxisCost(w, v, Zeros(6), 1, a) + AxisCost(w, v, Zeros(6), 2, a)
  {
    var o := Zeros(6);
    assert Coord(o, 0, a) == 0.0 && Coord(o, 1, a) == 0.0 && Coord(o, 2, a) == 0.0;
    ThreePointColumns(w.femPose, w.pathLength, w.refDeviation,
                      DiagonalCoefficient(3, w, 0), DiagonalCoefficient(3, w, 1), OneBackCoefficient(3, w, 1),
                      DiagonalCoefficient(3, w, 2), OneBackCoefficient(3, w, 2), TwoBackCoefficient(3, w, 2),
                      Coord(v, 0, a), Coord(v, 1, a), Coord(v, 2, a), Coord(o, 0, a), Coord(o, 1, a), Coord(o, 2, a));
  }

  // The polynomial identities behind the stencil coefficients, one per loop
  // shape, with the coefficients and the zero targets as parameters, in the
  // shape in which the column and axis costs unfold.

  lemma FirstTwoPointColumns(f: real, l: real, r: real, d0: real, d1: real, o1: real,
                             z0: real, z1: real, s0: real, s1: real)
    requires d0 == f + l + r && d1 == 5.0 * f + 2.0 * l + r && o1 == -2.0 * f - l
    requires s0 == 0.0 && s1 == 0.0
    ensures d0 * Sq(z0) + (d1 * Sq(z1) + 2.0 * o1 * z0 * z1)
         == r * Sq(z0 - s0) + (l * Sq(z1 - z0) + r * Sq(z1 - s1)) + Carry(f, l, z0, z1)
  {
  }

  lemma InteriorPointColumn(f: real, l: real, r: real, d: real, o: real, t: real,
                            za: real, zb: real, zc: real, s: real)
    requires d == 6.0 * f + 2.0 * l + r && o == -4.0 * f - l && t == f && s == 0.0
    ensures Carry(f, l, za, zb) + (d * Sq(zc) + 2.0 * o * zb * zc + 2.0 * t * za * zc)
         == (l * Sq(zc - zb) + f * Sq(za - 2.0 * zb + zc) + r * Sq(zc - s)) + Carry(f, l, zb, zc)
  {
  }

  lemma LastTwoPointColumns(f: real, l: real, r: real,
                            d2: real, o2: real, t2: real, d3: real, o3: real, t3: real,
                            z0: real, z1: real, z2: real, z3: real, s2: real, s3: real)
    requires d2 == 5.0 * f + 2.0 * l + r && o2 == -4.0 * f - l && t2 == f
    requires d3 == f + l + r && o3 == -2.0 * f - l && t3 == f
    requires s2 == 0.0 && s3 == 0.0
    ensures Carry(f, l, z0, z1)
            + (d2 * Sq(z2) + 2.0 * o2 * z1 * z2 + 2.0 * t2 * z0 * z2)
            + (d3 * Sq(z3) + 2.0 * o3 * z2 * z3 + 2.0 * t3 * z1 * z3)
         == (l * Sq(z2 - z1) + f * Sq(z0 - 2.0 * z1 + z2) + r * Sq(z2 - s2))
            + (l * Sq(z3 - z2) + f * Sq(z1 - 2.0 * z2 + z3) + r * Sq(z3 - s3))
  {
  }

  lemma ThreePointColumns(f: real, l: real, r: real,
                          d0: real, d1: real, o1: real, d2: real, o2: real, t2: real,
                          z0: real, z1: real, z2: real, s0: real, s1: real, s2: real)
    requires d0 == f + l + r && d1 == 4.0 * f + 2.0 * l + r && o1 == -2.0 * f - l
    requires d2 == f + l + r && o2 == -2.0 * f - l && t2 == f
    requires s0 == 0.0 && s1 == 0.0 && s2 == 0.0
    ensures d0 * Sq(z0)
            + (d1 * Sq(z1) + 2.0 * o1 * z0 * z1)
            + (d2 * Sq(z2) + 2.0 * o2 * z1 * z2 + 2.0 * t2 * z0 * z2)
         == r * Sq(z0 - s0)
            + (l * Sq(z1 - z0) + r * Sq(z1 - s1))
            + (l * Sq(z2 - z1) + f * Sq(z0 - 2.0 * z1 + z2) + r * Sq(z2 - s2))
  {
  }

  /** Up to point k (before the last two points), the columns carry the cost
      terms of the first k points plus the parts of the next second
      differences that involve points k - 2 and k - 1. */
  lemma {:induction false} StencilPrefix(n: nat, w: Weights, v: seq<real>, k: nat)
    requires n >= 4 && 2 <= k <= n - 2 && |v| == 2 * n
    ensures StencilCost(n, w, v, k) == Cost(w, v, Zeros(2 * n), k) + PrefixCarry(w, v, k)
  {
    var o := Zeros(2 * n);
    if k == 2 {
      assert StencilCost(n, w, v, 1) == ColumnCost(n, w, v, 0, 0) + ColumnCost(n, w, v, 0, 1);
      assert StencilCost(n, w, v, 2) == StencilCost(n, w, v, 1) + ColumnCost(n, w, v, 1, 0) + ColumnCost(n, w, v, 1, 1);
      assert Cost(w, v, o, 1) == AxisCost(w, v, o, 0, 0) + AxisCost(w, v, o, 0, 1);
      assert Cost(w, v, o, 2) == Cost(w, v, o, 1) + AxisCost(w, v, o, 1, 0) + AxisCost(w, v, o, 1, 1);
      assert PrefixCarry(w, v, 2) == AxisCarry(w, v, 2, 0) + AxisCarry(w, v, 2, 1);
      FirstTwoColumns(n, w, v, 0);
      FirstTwoColumns(n, w, v, 1);
    } else {
      var p := k - 1;
      StencilPrefix(n, w, v, p);
      InteriorColumn(n, w, v, p, 0);
      InteriorColumn(n, w, v, p, 1);
      assert StencilCost(n, w, v, k) == StencilCost(n, w, v, p) + ColumnCost(n, w, v, p, 0) + ColumnCost(n, w, v, p, 1);
      assert Cost(w, v, o, k) == Cost(w, v, o, p) + AxisCost(w, v, o, p, 0) + AxisCost(w, v, o, p, 1);
      assert PrefixCarry(w, v, p) == AxisCarry(w, v, p, 0) + AxisCarry(w, v, p, 1);
      assert PrefixCarry(w, v, k) == AxisCarry(w, v, k, 0) + AxisCarry(w, v, k, 1);
    }
  }

  lemma StencilIsCost(n: nat, w: Weights, v: seq<real>)
    requires n >= 3 && |v| == 2 * n
    ensures StencilCost(n, w, v, n) == Cost(w, v, Zeros(2 * n), n)
  {
    if n == 3 {
      ThreePointStencil(w, v);
    } else {
      LongerStencil(n, w, v);
    }
  }

  lemma ThreePointStencil(w: Weights, v: seq<real>)
    requires |v| == 6
    ensures StencilCost(3, w, v, 3) == Cost(w, v, Zeros(6), 3)
  {
    var o := Zeros(6);
    assert StencilCost(3, w, v, 1) == ColumnCost(3, w, v, 0, 0) + ColumnCost(3, w, v, 0, 1);
    assert StencilCost(3, w, v, 2) == StencilCost(3, w, v, 1) + ColumnCost(3, w, v, 1, 0) + ColumnCost(3, w, v, 1, 1);
    assert StencilCost(3, w, v, 3) == StencilCost(3, w, v, 2) + ColumnCost(3, w, v, 2, 0) + ColumnCost(3, w, v, 2, 1);
    assert Cost(w, v, o, 1) == AxisCost(w, v, o, 0, 0) + AxisCost(w, v, o, 0, 1);
    assert Cost(w, v, o, 2) == Cost(w, v, o, 1) + AxisCost(w, v, o, 1, 0) + AxisCost(w, v, o, 1, 1);
    assert Cost(w, v, o, 3) == Cost(w, v, o, 2) + AxisCost(w, v, o, 2, 0) + AxisCost(w, v, o, 2, 1);
    ThreeColumns(w, v, 0);
    ThreeColumns(w, v, 1);
  }

  lemma LongerStencil(n: nat, w: Weights, v: seq<real>)
    requires n >= 4 && |v| == 2 * n
    ensures StencilCost(n, w, v, n) == Cost(w, v, Zeros(2 * n), n)
  {
    var o := Zeros(2 * n);
    StencilPrefix(n, w, v, n - 2);
    assert StencilCost(n, w, v, n - 1)
        == StencilCost(n, w, v, n - 2) + ColumnCost(n, w, v, n - 2, 0) + ColumnCost(n, w, v, n - 2, 1);
    assert StencilCost(n, w, v, n)
        == StencilCost(n, w, v, n - 1) + ColumnCost(n, w, v, n - 1, 0) + ColumnCost(n, w, v, n - 1, 1);
    assert Cost(w, v, o, n - 1) == Cost(w, v, o, n - 2) + AxisCost(w, v, o, n - 2, 0) + AxisCost(w, v, o, n - 2, 1);
    assert Cost(w, v, o, n) == Cost(w, v, o, n - 1) + AxisCost(w, v, o, n - 1, 0) + AxisCost(w, v, o, n - 1, 1);
    assert PrefixCarry(w, v, n - 2) == AxisCarry(w, v, n - 2, 0) + AxisCarry(w, v, n - 2, 1);
    LastTwoColumns(n, w, v, 0);
    LastTwoColumns(n, w, v, 1);
  }

  /** The kernel is the doubled Hessian of the objective: for every vector x,
      x^T P x is twice the quadratic part of the smoothing objective. */
  lemma KernelIsDoubledObjective(n: nat, w: Weights, v: seq<real>)
    requires n >= 3 && |v| == 2 * n
    ensures QuadForm(KernelMatrix(n, w), 2 * n, v) == 2.0 * Cost(w, v, Zeros(2 * n), n)
  {
    KernelColumnRows(n, w);
    PackQuadForm(KernelColumns(n, w), v);
    ColumnsFormByPoints(n, w, v, n);
    StencilIsCost(n, w, v);
  }

  lemma WeightedSquare(weight: real, s: real)
    requires weight >= 0.0
    ensures weight * Sq(s) >= 0.0
  {
  }

  lemma AxisCostNonNegative(w: Weights, v: seq<real>, t: seq<real>, p: nat, a: nat)
    requires NonNegative(w) && a < 2 && 2 * p + a < |v| && |t| == |v|
    ensures AxisCost(w, v, t, p, a) >= 0.0
  {
    WeightedSquare(w.refDeviation, Coord(v, p, a) - Coord(t, p, a));
    if p >= 1 {
      WeightedSquare(w.pathLength, Coord(v, p, a) - Coord(v, p - 1, a));
    }
    if p >= 2 {
      WeightedSquare(w.femPose, Coord(v, p - 2, a) - 2.0 * Coord(v, p - 1, a) + Coord(v, p, a));
    }
  }

  /** With non-negative weights the smoothing objective is non-negative. */
  lemma {:induction false} CostNonNegative(w: Weights, v: seq<real>, t: seq<real>, k: nat)
    requires NonNegative(w) && 2 * k <= |v| && |t| == |v|
    ensures Cost(w, v, t, k) >= 0.0
  {
    if k > 0 {
      CostNonNegative(w, v, t, k - 1);
      AxisCostNonNegative(w, v, t, k - 1, 0);
      AxisCostNonNegative(w, v, t, k - 1, 1);
    }
  }

  /** The kernel is positive semi-definite for non-negative weights. */
  lemma KernelPositiveSemidefinite(n: nat, w: Weights, v: seq<real>)
    requires n >= 3 && |v| == 2 * n && NonNegative(w)
    ensures QuadForm(KernelMatrix(n, w), 2 * n, v) >= 0.0
  {
    KernelIsDoubledObjective(n, w, v);
    CostNonNegative(w, v, Zeros(2 * n), n);
  }

  // ---------------------------------------------------------------------------
  // The linear term chooses what the deviation penalty pulls towards
  // ---------------------------------------------------------------------------

  /** What moving the deviation target from the origin to t adds to the
      objective over the first k entries of x. */
  function TargetShift(r: real, t: seq<real>, v: seq<real>, k: nat): real
    requires k <= |t| && k <= |v|
  {
    if k == 0 then 0.0 else TargetShift(r, t, v, k - 1) + r * (t[k - 1] * t[k - 1] - 2.0 * (t[k - 1] * v[k - 1]))
  }

  lemma DeviationShift(r: real, z: real, target: real)
    ensures r * Sq(z - target) == r * Sq(z - 0.0) + r * (target * target - 2.0 * (target * z))
  {
  }

  /** One axis term of point p moves by the entry of the shift that belongs to it. */
  lemma AxisShift(w: Weights, v: seq<real>, t: seq<real>, p: nat, a: nat)
    requires a < 2 && 2 * p + a < |v| && |t| == |v|
    ensures var i := 2 * p + a;
      AxisCost(w, v, t, p, a)
      == AxisCost(w, v, Zeros(|v|), p, a)
         + (TargetShift(w.refDeviation, t, v, i + 1) - TargetShift(w.refDeviation, t, v, i))
  {
    var i := 2 * p + a;
    assert Coord(Zeros(|v|), p, a) == 0.0;
    assert TargetShift(w.refDeviation, t, v, i + 1) - TargetShift(w.refDeviation, t, v, i)
        == w.refDeviation * (t[i] * t[i] - 2.0 * (t[i] * v[i]));
    DeviationShift(w.refDeviation, Coord(v, p, a), Coord(t, p, a));
  }

  /** Moving the target of the deviation penalty changes the objective by a
      term linear in x plus a constant. */
  lemma {:induction false} CostShift(w: Weights, v: seq<real>, t: seq<real>, k: nat)
    requires 2 * k <= |v| && |t| == |v|
    ensures Cost(w, v, t, k) == Cost(w, v, Zeros(|v|), k) + TargetShift(w.refDeviation, t, v, 2 * k)
  {
    if k > 0 {
      var p := k - 1;
      var o := Zeros(|v|);
      var r := w.refDeviation;
      CostShift(w, v, t, p);
      PointShift(w, v, t, p);
      assert Cost(w, v, t, k) == Cost(w, v, t, p) + PointCost(w, v, t, p);
      assert Cost(w, v, o, k) == Cost(w, v, o, p) + PointCost(w, v, o, p);
    }
  }

  /** One point's share of `CostShift`: its two axis terms move by the two
      entries of the shift that belong to it. */
  lemma PointShift(w: Weights, v: seq<real>, t: seq<real>, p: nat)
    requires 2 * p + 2 <= |v| && |t| == |v|
    ensures PointCost(w, v, t, p) == PointCost(w, v, Zeros(|v|), p)
            + (TargetShift(w.refDeviation, t, v, 2 * p + 2) - TargetShift(w.refDeviation, t, v, 2 * p))
  {
    var o, r := Zeros(|v|), w.refDeviation;
    AxisShift(w, v, t, p, 0);
    AxisShift(w, v, t, p, 1);
    TelescopeTwo(AxisCost(w, v, t, p, 0), AxisCost(w, v, t, p, 1),
                 AxisCost(w, v, o, p, 0), AxisCost(w, v, o, p, 1),
                 TargetShift(r, t, v, 2 * p), TargetShift(r, t, v, 2 * p + 1), TargetShift(r, t, v, 2 * p + 2));
  }

  /** Two consecutive shifts add up to the shift across both.
      A separate lemma so that the caller applies this step to named
      quantities instead of re-deriving it over the unfolded costs. */
  lemma TelescopeTwo(a: real, b: real, a0: real, b0: real, s0: real, s1: real, s2: real)
    requires a == a0 + (s1 - s0) && b == b0 + (s2 - s1)
    ensures a + b == a0 + b0 + (s2 - s0)
  {
  }

  lemma CostStep(w: Weights, v: seq<real>, t: seq<real>, k: nat)
    requires 1 <= k && 2 * k <= |v| && |t| == |v|
    ensures Cost(w, v, t, k) == Cost(w, v, t, k - 1) + AxisCost(w, v, t, k - 1, 0) + AxisCost(w, v, t, k - 1, 1)
  {
  }

  /** q is the linear term of a deviation penalty with weight r and target t:
      q = -2 r t, entry by entry. */
  predicate PullsTowards(q: seq<real>, r: real, t: seq<real>) {
    |q| == |t| && forall i :: 0 <= i < |t| ==> q[i] == -2.0 * r * t[i]
  }

  /** The constant w_r |t|^2 over the first k entries of t. */
  function TargetConstant(r: real, t: seq<real>, k: nat): real
    requires k <= |t|
  {
    if k == 0 then 0.0 else TargetConstant(r, t, k - 1) + r * (t[k - 1] * t[k - 1])
  }

  lemma LinearStep(dq: real, dq1: real, shift: real, shift1: real, c: real, c1: real,
                   r: real, target: real, z: real, qi: real)
    requires dq == shift - c && qi == -2.0 * r * target
    requires dq1 == dq + qi * z
    requires shift1 == shift + r * (target * target - 2.0 * (target * z))
    requires c1 == c + r * (target * target)
    ensures dq1 == shift1 - c1
  {
  }

  /** The linear term -2 w_r t applied to x is the target shift less w_r |t|^2. */
  lemma {:induction false} LinearTermIsShift(r: real, q: seq<real>, t: seq<real>, v: seq<real>, k: nat)
    requires k <= |q| && k <= |t| && k <= |v|
    requires forall i :: 0 <= i < k ==> q[i] == -2.0 * r * t[i]
    ensures Dot(q, v, k) == TargetShift(r, t, v, k) - TargetConstant(r, t, k)
  {
    if k > 0 {
      LinearTermIsShift(r, q, t, v, k - 1);
      LinearTermStep(r, q, t, v, k);
    }
  }

  lemma LinearTermStep(r: real, q: seq<real>, t: seq<real>, v: seq<real>, k: nat)
    requires 1 <= k <= |q| && k <= |t| && k <= |v|
    requires q[k - 1] == -2.0 * r * t[k - 1]
    requires Dot(q, v, k - 1) == TargetShift(r, t, v, k - 1) - TargetConstant(r, t, k - 1)
    ensures Dot(q, v, k) == TargetShift(r, t, v, k) - TargetConstant(r, t, k)
  {
    LinearStep(Dot(q, v, k - 1), Dot(q, v, k), TargetShift(r, t, v, k - 1), TargetShift(r, t, v, k),
               TargetConstant(r, t, k - 1), TargetConstant(r, t, k), r, t[k - 1], v[k - 1], q[k - 1]);
  }

  /** A linear term q = -2 w_r t added to the objective measured from the
      origin gives the objective measured from t, less w_r |t|^2. */
  lemma LinearTermShiftsTarget(w: Weights, q: seq<real>, t: seq<real>, v: seq<real>, n: nat)
    requires |v| == 2 * n && |q| == 2 * n && |t| == 2 * n
    requires PullsTowards(q, w.refDeviation, t)
    ensures Cost(w, v, Zeros(2 * n), n) + Dot(q, v, 2 * n)
         == Cost(w, v, t, n) - TargetConstant(w.refDeviation, t, 2 * n)
  {
    LinearTermIsShift(w.refDeviation, q, t, v, 2 * n);
    CostShift(w, v, t, n);
    assert Zeros(|v|) == Zeros(2 * n);
  }

  /** A linear term q = -2 w_r t makes the QP objective the smoothing objective
      against target t, less the constant w_r |t|^2. */
  lemma LinearTermTarget(n: nat, w: Weights, q: seq<real>, t: seq<real>, v: seq<real>)
    requires n >= 3 && |v| == 2 * n && |q| == 2 * n && |t| == 2 * n
    requires PullsTowards(q, w.refDeviation, t)
    ensures QpObjective(n, w, q, v) == Cost(w, v, t, n) - TargetConstant(w.refDeviation, t, 2 * n)
  {
    KernelIsDoubledObjective(n, w, v);
    LinearTermShiftsTarget(w, q, t, v, n);
  }

  /** With the reference-based linear term the QP objective is the smoothing
      objective measured against the reference path, up to a constant. */
  lemma ReferenceOffsetTargetsReference(refs: seq<Point>, w: Weights, v: seq<real>)
    requires |refs| >= 3 && |v| == 2 * |refs|
    ensures QpObjective(|refs|, w, ReferenceOffset(refs, w), v)
         == Cost(w, v, Flatten(refs), |refs|) - TargetConstant(w.refDeviation, Flatten(refs), 2 * |refs|)
  {
    ReferenceOffsetScalesReference(refs, w);
    LinearTermTarget(|refs|, w, ReferenceOffset(refs, w), Flatten(refs), v);
  }

  /** The reference-based linear term is -2 w_r times the flattened reference path. */
  lemma ReferenceOffsetScalesReference(refs: seq<Point>, w: Weights)
    ensures PullsTowards(ReferenceOffset(refs, w), w.refDeviation, Flatten(refs))
  {
    var q := ReferenceOffset(refs, w);
    var t := Flatten(refs);
    forall i | 0 <= i < 2 * |refs|
      ensures q[i] == -2.0 * w.refDeviation * t[i]
    {
      var p := i / 2;
      if i == 2 * p {
        assert q[2 * p] == -2.0 * w.refDeviation * refs[p].x && t[2 * p] == refs[p].x;
      } else {
        assert i == 2 * p + 1;
        assert q[2 * p + 1] == -2.0 * w.refDeviation * refs[p].y && t[2 * p + 1] == refs[p].y;
      }
    }
  }

  /** Scaling by 1.0 leaves a real unchanged. A separate lemma so that the
      caller can instantiate it at a sequence element without a quantifier. */
  lemma UnitScale(s: real)
    ensures s == s * 1.0
  {
  }

  /** The source's linear term is -2 w_r times the all-ones vector. */
  lemma ConstantOffsetScalesOnes(n: nat, w: Weights)
    ensures PullsTowards(CalculateOffset(2 * n, w), w.refDeviation, Ones(2 * n))
  {
    var q := CalculateOffset(2 * n, w);
    forall i | 0 <= i < 2 * n
      ensures q[i] == -2.0 * w.refDeviation * Ones(2 * n)[i]
    {
      UnitScale(-2.0 * w.refDeviation);
    }
  }

  /** With the source's constant linear term the QP objective is the smoothing
      objective measured against the point (1, 1) at every position, up to a
      constant: the reference coordinates play no part in it. */
  lemma ConstantOffsetTargetsUnitPoint(n: nat, w: Weights, v: seq<real>)
    requires n >= 3 && |v| == 2 * n
    ensures QpObjective(n, w, CalculateOffset(2 * n, w), v)
         == Cost(w, v, Ones(2 * n), n) - TargetConstant(w.refDeviation, Ones(2 * n), 2 * n)
  {
    ConstantOffsetScalesOnes(n, w);
    LinearTermTarget(n, w, CalculateOffset(2 * n, w), Ones(2 * n), v);
  }

  /** A path whose x coordinates are all equal and whose y coordinates are all
      equal: every difference term of the objective vanishes on it. */
  predicate ConstantAxes(v: seq<real>) {
    forall i :: 2 <= i < |v| ==> v[i] == v[i - 2]
  }

  lemma WeightedZero(weight: real, s: real)
    requires s == 0.0
    ensures weight * Sq(s) == 0.0
  {
  }

  lemma WeightedUnit(weight: real, s: real)
    requires Sq(s) == 1.0
    ensures weight * Sq(s) == weight * (1.0 * 1.0)
  {
  }

  lemma ConstantShape(w: Weights, v: seq<real>, p: nat, a: nat)
    requires ConstantAxes(v) && a < 2 && 2 * p + a < |v|
    ensures ShapeCost(w, v, p, a) == 0.0
  {
    if p >= 1 {
      assert v[2 * p + a] == v[2 * (p - 1) + a];
      WeightedZero(w.pathLength, Coord(v, p, a) - Coord(v, p - 1, a));
    }
    if p >= 2 {
      assert v[2 * (p - 1) + a] == v[2 * (p - 2) + a];
      WeightedZero(w.femPose, Coord(v, p - 2, a) - 2.0 * Coord(v, p - 1, a) + Coord(v, p, a));
    }
  }

  /** A path with constant axes measured against itself costs nothing. */
  lemma {:induction false} ConstantPathCost(w: Weights, v: seq<real>, k: nat)
    requires ConstantAxes(v) && 2 * k <= |v|
    ensures Cost(w, v, v, k) == 0.0
  {
    if k > 0 {
      ConstantPathCost(w, v, k - 1);
      ConstantShape(w, v, k - 1, 0);
      ConstantShape(w, v, k - 1, 1);
      WeightedZero(w.refDeviation, Coord(v, k - 1, 0) - Coord(v, k - 1, 0));
      WeightedZero(w.refDeviation, Coord(v, k - 1, 1) - Coord(v, k - 1, 1));
      CostStep(w, v, v, k);
    }
  }

  /** A path with constant axes lying at unit distance from its target in every
      coordinate costs w_r per coordinate. */
  lemma {:induction false} UnitGapCost(w: Weights, v: seq<real>, t: seq<real>, k: nat)
    requires ConstantAxes(v) && 2 * k <= |v| && |t| == |v|
    requires forall i :: 0 <= i < |v| ==> Sq(v[i] - t[i]) == 1.0
    ensures Cost(w, v, t, k) == TargetConstant(w.refDeviation, Ones(|v|), 2 * k)
  {
    if k > 0 {
      var p := k - 1;
      var o := Ones(|v|);
      UnitGapCost(w, v, t, p);
      ConstantShape(w, v, p, 0);
      ConstantShape(w, v, p, 1);
      WeightedUnit(w.refDeviation, Coord(v, p, 0) - Coord(t, p, 0));
      WeightedUnit(w.refDeviation, Coord(v, p, 1) - Coord(t, p, 1));
      CostStep(w, v, t, k);
      assert TargetConstant(w.refDeviation, o, 2 * p + 1)
          == TargetConstant(w.refDeviation, o, 2 * p) + w.refDeviation * (o[2 * p] * o[2 * p]);
    }
  }

  lemma {:induction false} UnitTargetPositive(r: real, m: nat, k: nat)
    requires r > 0.0 && 0 < k <= m
    ensures TargetConstant(r, Ones(m), k) > 0.0
  {
    if k > 1 {
      UnitTargetPositive(r, m, k - 1);
    }
  }

  /** The constant linear term misses the reference: for a path lying at the
      origin with a positive deviation weight, the QP objective is lower at
      the all-ones point than at the reference path itself, although the
      smoothing objective against the reference is zero there and positive at
      the all-ones point. */
  lemma ConstantOffsetMissesReference(n: nat, w: Weights)
    requires n >= 3 && w.refDeviation > 0.0
    ensures var origin := seq(n, _ => Point(0.0, 0.0));
      && Cost(w, Flatten(origin), Flatten(origin), n) == 0.0
      && Cost(w, Ones(2 * n), Flatten(origin), n) > 0.0
      && QpObjective(n, w, CalculateOffset(2 * n, w), Ones(2 * n))
         < QpObjective(n, w, CalculateOffset(2 * n, w), Flatten(origin))
  {
    var origin := seq(n, _ => Point(0.0, 0.0));
    var z := Flatten(origin);
    var o := Ones(2 * n);
    forall i | 0 <= i < 2 * n
      ensures z[i] == 0.0
    {
      var p := i / 2;
      assert origin[p] == Point(0.0, 0.0);
      assert i == 2 * p || i == 2 * p + 1;
    }
    assert Sq(1.0) == 1.0 && Sq(-1.0) == 1.0;
    ConstantPathCost(w, z, n);
    ConstantPathCost(w, o, n);
    UnitGapCost(w, o, z, n);
    UnitGapCost(w, z, o, n);
    UnitTargetPositive(w.refDeviation, 2 * n, 2 * n);
    ConstantOffsetTargetsUnitPoint(n, w, o);
    ConstantOffsetTargetsUnitPoint(n, w, z);
  }
}
