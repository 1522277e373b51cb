/** The linear term, the constraints and the warm start of the smoothing QP.

    The constraints are boxes, one per decision variable: the constraint matrix
    is the identity (one stored 1.0 per column, on the diagonal), and the
    bounds put each coordinate of point i within its half-width of the
    reference coordinate. The warm start is the reference path itself. */
module Constraints {
  import opened Csc
  import opened Layout
  import opened Kernel

  // ---------------------------------------------------------------------------
  // Linear term
  // ---------------------------------------------------------------------------

  /** The linear term as the source builds it: one entry per variable, each the
      constant -2 w_r, whatever the reference coordinates. */
  function CalculateOffset(numVariables: nat, w: Weights): (q: seq<real>)
    ensures |q| == numVariables
    ensures forall i :: 0 <= i < numVariables ==> q[i] == -2.0 * w.refDeviation
  {
    if numVariables == 0 then []
    else CalculateOffset(numVariables - 1, w) + [-2.0 * w.refDeviation]
  }

  /** The linear term of the deviation penalty w_r (z - ref)^2: -2 w_r times
      the reference coordinate of each variable. */
  function ReferenceOffset(refs: seq<Point>, w: Weights): (q: seq<real>)
    ensures |q| == 2 * |refs|
    ensures forall i :: 0 <= i < |refs| ==>
              q[2 * i] == -2.0 * w.refDeviation * refs[i].x
              && q[2 * i + 1] == -2.0 * w.refDeviation * refs[i].y
  {
    var xs := seq(|refs|, i requires 0 <= i < |refs| => -2.0 * w.refDeviation * refs[i].x);
    var ys := seq(|refs|, i requires 0 <= i < |refs| => -2.0 * w.refDeviation * refs[i].y);
    assert forall i :: 0 <= i < |refs| ==> xs[i] == -2.0 * w.refDeviation * refs[i].x;
    assert forall i :: 0 <= i < |refs| ==> ys[i] == -2.0 * w.refDeviation * refs[i].y;
    Interleave(xs, ys)
  }

  // ---------------------------------------------------------------------------
  // Constraint matrix and bounds
  // ---------------------------------------------------------------------------

  datatype AffineConstraint = AffineConstraint(a: Matrix, lower: seq<real>, upper: seq<real>)

  /** Column c of the identity: a single 1.0 in row c. */
  function IdentityColumns(n: nat): (cols: seq<seq<Slot>>)
    ensures |cols| == n && forall c :: 0 <= c < n ==> cols[c] == [Slot(c, 1.0)]
  {
    seq(n, c requires 0 <= c < n => [Slot(c, 1.0)])
  }

  lemma {:induction false} IdentitySlotCount(n: nat, k: nat)
    requires k <= n
    ensures SlotCount(IdentityColumns(n)[..k]) == k
  {
    if k > 0 {
      IdentitySlotCount(n, k - 1);
      assert IdentityColumns(n)[..k][..k - 1] == IdentityColumns(n)[..k - 1];
    }
  }

  /** The identity in CSC: all values 1.0, value i in row i, column pointer i at i. */
  lemma IdentityLayout(n: nat)
    ensures var m := Pack(IdentityColumns(n));
      && WellFormed(m, n)
      && |m.data| == n
      && (forall i :: 0 <= i < n ==> m.data[i] == 1.0 && m.indices[i] == i)
      && (forall i :: 0 <= i <= n ==> m.indptr[i] == i)
  {
    var cols := IdentityColumns(n);
    var m := Pack(cols);
    forall i | 0 <= i <= n
      ensures m.indptr[i] == i
    {
      PackPointer(cols, i);
      IdentitySlotCount(n, i);
    }
    forall i | 0 <= i < n
      ensures m.data[i] == 1.0 && m.indices[i] == i
    {
      PackColumn(cols, i);
      assert Column(m, n, i)[0] == Slot(m.indices[i], m.data[i]);
    }
  }

  /** The constraint matrix as the source builds it: for each variable i a
      value 1.0 in row i, column pointer i before it, and a closing pointer. */
  function IdentityMatrix(n: nat): (m: Matrix)
    ensures WellFormed(m, n)
    ensures |m.data| == |m.indices| == n
    ensures forall i :: 0 <= i < n ==> m.data[i] == 1.0 && m.indices[i] == i
    ensures forall i :: 0 <= i <= n ==> m.indptr[i] == i
    ensures forall c :: 0 <= c < n ==> Column(m, n, c) == [Slot(c, 1.0)]
  {
    IdentityLayout(n);
    forall c | 0 <= c < n
      ensures Column(Pack(IdentityColumns(n)), n, c) == [Slot(c, 1.0)]
    {
      PackColumn(IdentityColumns(n), c);
    }
    Pack(IdentityColumns(n))
  }

  /** Lower and upper bound vectors in decision-vector layout. */
  datatype Box = Box(lower: seq<real>, upper: seq<real>)

  /** The bounds as the source builds them: for each reference point i, the x
      slot bounded by x_i -/+ xb_i and the y slot by y_i -/+ yb_i. */
  function BoxBounds(refs: seq<Point>, xBounds: seq<real>, yBounds: seq<real>): (b: Box)
    requires |xBounds| == |refs| && |yBounds| == |refs|
    ensures |b.lower| == |b.upper| == 2 * |refs|
    ensures forall i :: 0 <= i < |refs| ==>
              && b.upper[2 * i] == refs[i].x + xBounds[i]
              && b.upper[2 * i + 1] == refs[i].y + yBounds[i]
              && b.lower[2 * i] == refs[i].x - xBounds[i]
              && b.lower[2 * i + 1] == refs[i].y - yBounds[i]
  {
    var n := |refs|;
    var xLow := seq(n, i requires 0 <= i < n => refs[i].x - xBounds[i]);
    var yLow := seq(n, i requires 0 <= i < n => refs[i].y - yBounds[i]);
    var xHigh := seq(n, i requires 0 <= i < n => refs[i].x + xBounds[i]);
    var yHigh := seq(n, i requires 0 <= i < n => refs[i].y + yBounds[i]);
    assert forall i :: 0 <= i < n ==> xLow[i] == refs[i].x - xBounds[i] && yLow[i] == refs[i].y - yBounds[i];
    assert forall i :: 0 <= i < n ==> xHigh[i] == refs[i].x + xBounds[i] && yHigh[i] == refs[i].y + yBounds[i];
    Box(Interleave(xLow, yLow), Interleave(xHigh, yHigh))
  }

  /** The affine constraint l <= A x <= u as the source builds it: A is the
      identity over `numVariables` variables (one constraint per variable), and
      the bounds hold one box per reference coordinate. */
  function CalculateAffineConstraint(numVariables: nat, refs: seq<Point>, xBounds: seq<real>, yBounds: seq<real>)
    : (r: AffineConstraint)
    requires |xBounds| == |refs| && |yBounds| == |refs|
    ensures WellFormed(r.a, numVariables)
    ensures |r.a.data| == |r.a.indices| == numVariables
    ensures forall i :: 0 <= i < numVariables ==> r.a.data[i] == 1.0 && r.a.indices[i] == i
    ensures forall i :: 0 <= i <= numVariables ==> r.a.indptr[i] == i
    ensures forall c :: 0 <= c < numVariables ==> Column(r.a, numVariables, c) == [Slot(c, 1.0)]
    ensures |r.lower| == |r.upper| == 2 * |refs|
    ensures forall i :: 0 <= i < |refs| ==>
              && r.upper[2 * i] == refs[i].x + xBounds[i]
              && r.upper[2 * i + 1] == refs[i].y + yBounds[i]
              && r.lower[2 * i] == refs[i].x - xBounds[i]
              && r.lower[2 * i + 1] == refs[i].y - yBounds[i]
  {
    var b := BoxBounds(refs, xBounds, yBounds);
    AffineConstraint(IdentityMatrix(numVariables), b.lower, b.upper)
  }

  /** The bound half-widths in decision-vector layout. */
  function HalfWidths(xBounds: seq<real>, yBounds: seq<real>): (h: seq<real>)
    requires |xBounds| == |yBounds|
    ensures |h| == 2 * |xBounds|
    ensures forall i :: 0 <= i < |xBounds| ==> h[2 * i] == xBounds[i] && h[2 * i + 1] == yBounds[i]
  {
    Interleave(xBounds, yBounds)
  }

  /** Each box is centred on the reference and twice its half-width wide. */
  lemma BoxWidth(refs: seq<Point>, xBounds: seq<real>, yBounds: seq<real>)
    requires |xBounds| == |refs| && |yBounds| == |refs|
    ensures var r := BoxBounds(refs, xBounds, yBounds);
      var h := HalfWidths(xBounds, yBounds);
      var t := Flatten(refs);
      forall k :: 0 <= k < 2 * |refs| ==>
        r.upper[k] - r.lower[k] == 2.0 * h[k] && r.upper[k] + r.lower[k] == 2.0 * t[k]
  {
    var r := BoxBounds(refs, xBounds, yBounds);
    var h := HalfWidths(xBounds, yBounds);
    var t := Flatten(refs);
    forall k | 0 <= k < 2 * |refs|
      ensures r.upper[k] - r.lower[k] == 2.0 * h[k] && r.upper[k] + r.lower[k] == 2.0 * t[k]
    {
      var i := k / 2;
      assert k == 2 * i || k == 2 * i + 1;
      assert r.upper[2 * i] == refs[i].x + xBounds[i] && r.lower[2 * i] == refs[i].x - xBounds[i];
      assert r.upper[2 * i + 1] == refs[i].y + yBounds[i] && r.lower[2 * i + 1] == refs[i].y - yBounds[i];
    }
  }

  predicate NonNegativeBounds(xBounds: seq<real>, yBounds: seq<real>) {
    (forall i :: 0 <= i < |xBounds| ==> xBounds[i] >= 0.0)
    && (forall i :: 0 <= i < |yBounds| ==> yBounds[i] >= 0.0)
  }

  /** `v` lies in the box [lower, upper], slot by slot. */
  predicate InBox(v: seq<real>, lower: seq<real>, upper: seq<real>)
    requires |lower| == |upper| == |v|
  {
    forall k :: 0 <= k < |v| ==> lower[k] <= v[k] <= upper[k]
  }

  /** Every lower bound is at most its upper bound exactly when no half-width
      is negative; then the reference path (the warm start) is feasible. */
  lemma BoxOrdered(refs: seq<Point>, xBounds: seq<real>, yBounds: seq<real>)
    requires |xBounds| == |refs| && |yBounds| == |refs|
    ensures var r := BoxBounds(refs, xBounds, yBounds);
      (forall k :: 0 <= k < 2 * |refs| ==> r.lower[k] <= r.upper[k])
        <==> NonNegativeBounds(xBounds, yBounds)
    ensures var r := BoxBounds(refs, xBounds, yBounds);
      InBox(Flatten(refs), r.lower, r.upper) <==> NonNegativeBounds(xBounds, yBounds)
  {
    var r := BoxBounds(refs, xBounds, yBounds);
    var t := Flatten(refs);
    if NonNegativeBounds(xBounds, yBounds) {
      forall k | 0 <= k < 2 * |refs|
        ensures r.lower[k] <= t[k] <= r.upper[k]
      {
        var i := PointOf(k);
        assert xBounds[i] >= 0.0 && yBounds[i] >= 0.0;
      }
    }
    if forall k :: 0 <= k < 2 * |refs| ==> r.lower[k] <= r.upper[k] {
      forall i | 0 <= i < |refs|
        ensures xBounds[i] >= 0.0 && yBounds[i] >= 0.0
      {
        assert r.lower[2 * i] <= r.upper[2 * i];
        assert r.lower[2 * i + 1] <= r.upper[2 * i + 1];
      }
    }
    if InBox(t, r.lower, r.upper) {
      forall i | 0 <= i < |refs|
        ensures xBounds[i] >= 0.0 && yBounds[i] >= 0.0
      {
        assert r.lower[2 * i] <= t[2 * i] <= r.upper[2 * i];
        assert r.lower[2 * i + 1] <= t[2 * i + 1] <= r.upper[2 * i + 1];
      }
    }
  }

  /** The point whose coordinate sits in slot k of the interleaved layout. */
  lemma PointOf(k: nat) returns (i: nat)
    ensures k == 2 * i || k == 2 * i + 1
  {
    i := k / 2;
  }

  /** Every point of `v` lies within its half-widths of its reference point. */
  predicate NearReference(refs: seq<Point>, xBounds: seq<real>, yBounds: seq<real>, v: seq<real>)
    requires |xBounds| == |refs| && |yBounds| == |refs| && |v| == 2 * |refs|
  {
    var d := Deinterleave(v, |refs|);
    forall i :: 0 <= i < |refs| ==>
      && refs[i].x - xBounds[i] <= d.xs[i] <= refs[i].x + xBounds[i]
      && refs[i].y - yBounds[i] <= d.ys[i] <= refs[i].y + yBounds[i]
  }

  /** A vector satisfies the box constraints exactly when every point it
      encodes lies within its half-widths of its reference point. */
  lemma BoxMeansNeighbourhood(refs: seq<Point>, xBounds: seq<real>, yBounds: seq<real>, v: seq<real>)
    requires |xBounds| == |refs| && |yBounds| == |refs| && |v| == 2 * |refs|
    ensures var r := BoxBounds(refs, xBounds, yBounds);
      var d := Deinterleave(v, |refs|);
      InBox(v, r.lower, r.upper) <==>
        forall i :: 0 <= i < |refs| ==>
          && refs[i].x - xBounds[i] <= d.xs[i] <= refs[i].x + xBounds[i]
          && refs[i].y - yBounds[i] <= d.ys[i] <= refs[i].y + yBounds[i]
  {
    var r := BoxBounds(refs, xBounds, yBounds);
    if InBox(v, r.lower, r.upper) {
      InBoxIsNear(refs, xBounds, yBounds, v);
    }
    if NearReference(refs, xBounds, yBounds, v) {
      NearIsInBox(refs, xBounds, yBounds, v);
    }
  }

  lemma InBoxIsNear(refs: seq<Point>, xBounds: seq<real>, yBounds: seq<real>, v: seq<real>)
    requires |xBounds| == |refs| && |yBounds| == |refs| && |v| == 2 * |refs|
    requires var r := BoxBounds(refs, xBounds, yBounds); InBox(v, r.lower, r.upper)
    ensures NearReference(refs, xBounds, yBounds, v)
  {
    var r := BoxBounds(refs, xBounds, yBounds);
    var d := Deinterleave(v, |refs|);
    forall i | 0 <= i < |refs|
      ensures refs[i].x - xBounds[i] <= d.xs[i] <= refs[i].x + xBounds[i]
      ensures refs[i].y - yBounds[i] <= d.ys[i] <= refs[i].y + yBounds[i]
    {
      assert r.lower[2 * i] <= v[2 * i] <= r.upper[2 * i];
      assert r.lower[2 * i + 1] <= v[2 * i + 1] <= r.upper[2 * i + 1];
    }
  }

  lemma NearIsInBox(refs: seq<Point>, xBounds: seq<real>, yBounds: seq<real>, v: seq<real>)
    requires |xBounds| == |refs| && |yBounds| == |refs| && |v| == 2 * |refs|
    requires NearReference(refs, xBounds, yBounds, v)
    ensures var r := BoxBounds(refs, xBounds, yBounds); InBox(v, r.lower, r.upper)
  {
    var r := BoxBounds(refs, xBounds, yBounds);
    var d := Deinterleave(v, |refs|);
    forall k | 0 <= k < |v|
      ensures r.lower[k] <= v[k] <= r.upper[k]
    {
      var i := PointOf(k);
      assert d.xs[i] == v[2 * i] && d.ys[i] == v[2 * i + 1];
    }
  }

  // ---------------------------------------------------------------------------
  // Warm start
  // ---------------------------------------------------------------------------

  /** The primal warm start: the reference points flattened, x then y per
      point; reading it back as a solution returns the reference path. */
  function SetPrimalWarmStart(refs: seq<Point>): (v: seq<real>)
    ensures |v| == 2 * |refs|
    ensures forall i :: 0 <= i < |refs| ==> v[2 * i] == refs[i].x && v[2 * i + 1] == refs[i].y
    ensures Deinterleave(v, |refs|) == Coordinates(Xs(refs), Ys(refs))
  {
    DeinterleaveInterleave(Xs(refs), Ys(refs));
    Flatten(refs)
  }
}
