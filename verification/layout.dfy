/** The decision vector of the smoothing QP and its layout.

    A path of N points is optimised as 2N reals interleaved point by point,
    (x0, y0, x1, y1, ...): slot 2i is the x of point i and slot 2i + 1 its y.
    The warm start, the bound vectors and the linear term are written in this
    layout, and the solver's solution is read back out of it. */
module Layout {

  /** A 2-D path point (a pair of `c_float`, modelled as reals). */
  datatype Point = Point(x: real, y: real)

  /** Two coordinate sequences of equal length, point by point. */
  datatype Coordinates = Coordinates(xs: seq<real>, ys: seq<real>)

  /** The x coordinates of a path, in path order. */
  function Xs(points: seq<Point>): (xs: seq<real>)
    ensures |xs| == |points| && forall i :: 0 <= i < |points| ==> xs[i] == points[i].x
  {
    seq(|points|, i requires 0 <= i < |points| => points[i].x)
  }

  /** The y coordinates of a path, in path order. */
  function Ys(points: seq<Point>): (ys: seq<real>)
    ensures |ys| == |points| && forall i :: 0 <= i < |points| ==> ys[i] == points[i].y
  {
    seq(|points|, i requires 0 <= i < |points| => points[i].y)
  }

  /** Writes point-wise values into the decision-vector layout by pushing, for
      each point in order, its x value and then its y value. */
  function Interleave(xs: seq<real>, ys: seq<real>): (v: seq<real>)
    requires |xs| == |ys|
    ensures |v| == 2 * |xs|
    ensures forall i :: 0 <= i < |xs| ==> v[2 * i] == xs[i] && v[2 * i + 1] == ys[i]
    decreases |xs|
  {
    if |xs| == 0 then []
    else
      var n := |xs| - 1;
      var prefix := Interleave(xs[..n], ys[..n]);
      prefix + [xs[n], ys[n]]
  }

  /** Reads the first `n` points back out of a decision vector: point i takes
      slot `i << 1` as x and the slot after it as y. */
  function Deinterleave(v: seq<real>, n: nat): (pts: Coordinates)
    requires 2 * n <= |v|
    ensures |pts.xs| == n && |pts.ys| == n
    ensures forall i :: 0 <= i < n ==> pts.xs[i] == v[2 * i] && pts.ys[i] == v[2 * i + 1]
  {
    Coordinates(seq(n, i requires 0 <= i < n => v[2 * i]),
                seq(n, i requires 0 <= i < n => v[2 * i + 1]))
  }

  /** Reading back what was written returns the original coordinates. */
  lemma DeinterleaveInterleave(xs: seq<real>, ys: seq<real>)
    requires |xs| == |ys|
    ensures Deinterleave(Interleave(xs, ys), |xs|) == Coordinates(xs, ys)
  {
    var v := Interleave(xs, ys);
    var d := Deinterleave(v, |xs|);
    assert d.xs == xs by {
      forall i | 0 <= i < |xs|
        ensures d.xs[i] == xs[i]
      {
        assert d.xs[i] == v[2 * i];
      }
    }
    assert d.ys == ys by {
      forall i | 0 <= i < |xs|
        ensures d.ys[i] == ys[i]
      {
        assert d.ys[i] == v[2 * i + 1];
      }
    }
  }

  /** Writing back what was read returns the original vector of even length. */
  lemma InterleaveDeinterleave(v: seq<real>)
    requires |v| % 2 == 0
    ensures Interleave(Deinterleave(v, |v| / 2).xs, Deinterleave(v, |v| / 2).ys) == v
  {
    var n := |v| / 2;
    var d := Deinterleave(v, n);
    var w := Interleave(d.xs, d.ys);
    forall k | 0 <= k < |v|
      ensures w[k] == v[k]
    {
      var i := k / 2;
      assert w[2 * i] == d.xs[i] == v[2 * i];
      assert w[2 * i + 1] == d.ys[i] == v[2 * i + 1];
      assert k == 2 * i || k == 2 * i + 1;
    }
  }

  /** The flattened path: the points themselves in decision-vector layout. */
  function Flatten(points: seq<Point>): (v: seq<real>)
    ensures |v| == 2 * |points|
    ensures forall i :: 0 <= i < |points| ==> v[2 * i] == points[i].x && v[2 * i + 1] == points[i].y
  {
    Interleave(Xs(points), Ys(points))
  }
}
