/** Compressed sparse column (CSC) matrices, as handed to the QP solver.

    A matrix with `n` columns is three flat arrays: the stored values, the row
    index of each stored value, and `n + 1` column pointers; column `c` owns the
    stored slots `indptr[c] .. indptr[c+1]`. The kernel builder assembles a
    matrix column by column (`Pack`), and `Column` reads one column back, so the
    two form a round trip. A symmetric matrix is stored by its upper triangle
    only; `QuadForm` evaluates x^T P x of the symmetric matrix so described. */
module Csc {

  /** One stored entry of a column: its row and its value. */
  datatype Slot = Slot(row: int, value: real)

  datatype Matrix = Matrix(data: seq<real>, indices: seq<int>, indptr: seq<int>)

  /** `m` is a well-formed CSC matrix with `n` columns: `n + 1` non-decreasing
      column pointers from 0 up to the number of stored slots. */
  predicate WellFormed(m: Matrix, n: nat) {
    && |m.indptr| == n + 1
    && m.indptr[0] == 0
    && m.indptr[n] == |m.data| == |m.indices|
    && forall i, j :: 0 <= i <= j <= n ==> m.indptr[i] <= m.indptr[j]
  }

  /** Every column of `m` holds at least one slot (the column pointers strictly increase). */
  predicate StrictlyIncreasingPointers(m: Matrix, n: nat)
    requires |m.indptr| == n + 1
  {
    forall c :: 0 <= c < n ==> m.indptr[c] < m.indptr[c + 1]
  }

  /** Every stored row index lies in `0 .. bound - 1`. */
  predicate RowsBelow(m: Matrix, bound: nat) {
    forall k :: 0 <= k < |m.indices| ==> 0 <= m.indices[k] < bound
  }

  /** The slots of column `c`, in storage order. */
  function Column(m: Matrix, n: nat, c: nat): (s: seq<Slot>)
    requires WellFormed(m, n) && c < n
    ensures |s| == m.indptr[c + 1] - m.indptr[c]
    ensures forall j :: 0 <= j < |s| ==>
              s[j] == Slot(m.indices[m.indptr[c] + j], m.data[m.indptr[c] + j])
  {
    assert m.indptr[c] <= m.indptr[c + 1] <= m.indptr[n];
    seq(m.indptr[c + 1] - m.indptr[c],
        j requires 0 <= j < m.indptr[c + 1] - m.indptr[c] =>
          Slot(m.indices[m.indptr[c] + j], m.data[m.indptr[c] + j]))
  }

  /** All columns of `m`, unpacked. */
  function Columns(m: Matrix, n: nat): (cols: seq<seq<Slot>>)
    requires WellFormed(m, n)
    ensures |cols| == n
    ensures forall c :: 0 <= c < n ==> cols[c] == Column(m, n, c)
  {
    seq(n, c requires 0 <= c < n => Column(m, n, c))
  }

  /** Only the upper triangle is stored: every row index of column c lies in 0 .. c. */
  predicate UpperTriangular(m: Matrix, n: nat)
    requires WellFormed(m, n)
  {
    forall c, j :: 0 <= c < n && 0 <= j < |Column(m, n, c)| ==> 0 <= Column(m, n, c)[j].row <= c
  }

  /** Within each column the row indices strictly increase and the last one is
      the diagonal. */
  predicate SortedWithDiagonalLast(m: Matrix, n: nat)
    requires WellFormed(m, n)
  {
    && (forall c, j :: 0 <= c < n && 0 < j < |Column(m, n, c)| ==>
          Column(m, n, c)[j - 1].row < Column(m, n, c)[j].row)
    && (forall c :: 0 <= c < n ==>
          |Column(m, n, c)| > 0 && Column(m, n, c)[|Column(m, n, c)| - 1].row == c)
  }

  function Values(s: seq<Slot>): (v: seq<real>)
    ensures |v| == |s| && forall i :: 0 <= i < |s| ==> v[i] == s[i].value
  {
    seq(|s|, i requires 0 <= i < |s| => s[i].value)
  }

  function Rows(s: seq<Slot>): (v: seq<int>)
    ensures |v| == |s| && forall i :: 0 <= i < |s| ==> v[i] == s[i].row
  {
    seq(|s|, i requires 0 <= i < |s| => s[i].row)
  }

  /** Total number of slots in a list of columns. */
  function SlotCount(cols: seq<seq<Slot>>): nat {
    if |cols| == 0 then 0 else SlotCount(cols[..|cols| - 1]) + |cols[|cols| - 1]|
  }

  /** Appends column `last` to the `n`-column matrix `prefix`: its slots go after
      the stored ones and the slot count so far closes the new column. */
  function Append(prefix: Matrix, last: seq<Slot>): Matrix {
    Matrix(prefix.data + Values(last), prefix.indices + Rows(last),
           prefix.indptr + [|prefix.data| + |last|])
  }

  /** Assembles a CSC matrix from its columns, in column order: for each column
      the running slot count is recorded as its pointer, then its slots are
      appended; a final pointer closes the last column. */
  function Pack(cols: seq<seq<Slot>>): (m: Matrix)
    ensures WellFormed(m, |cols|)
    ensures |m.data| == SlotCount(cols)
    decreases |cols|
  {
    if |cols| == 0 then Matrix([], [], [0])
    else Append(Pack(cols[..|cols| - 1]), cols[|cols| - 1])
  }

  /** Packing keeps row indices in range when every column's rows are. */
  lemma {:induction false} PackRowsBelow(cols: seq<seq<Slot>>, bound: nat)
    requires forall c, j :: 0 <= c < |cols| && 0 <= j < |cols[c]| ==> 0 <= cols[c][j].row < bound
    ensures RowsBelow(Pack(cols), bound)
    decreases |cols|
  {
    if |cols| > 0 {
      var n := |cols|;
      PackRowsBelow(cols[..n - 1], bound);
      var prefix := Pack(cols[..n - 1]);
      var m := Pack(cols);
      forall k | 0 <= k < |m.indices|
        ensures 0 <= m.indices[k] < bound
      {
        if k >= |prefix.indices| {
          assert m.indices[k] == cols[n - 1][k - |prefix.indices|].row;
        } else {
          assert m.indices[k] == prefix.indices[k];
        }
      }
    }
  }

  /** Round trip: reading column `c` back out of `Pack(cols)` gives `cols[c]`. */
  lemma {:induction false} PackColumn(cols: seq<seq<Slot>>, c: nat)
    requires c < |cols|
    ensures Column(Pack(cols), |cols|, c) == cols[c]
    decreases |cols|
  {
    if c < |cols| - 1 {
      PackColumn(cols[..|cols| - 1], c);
      PackEarlierColumn(cols, c);
    } else {
      PackLastColumn(cols);
    }
  }

  /** Appending a column leaves the columns before it as they were. */
  lemma PackEarlierColumn(cols: seq<seq<Slot>>, c: nat)
    requires c < |cols| - 1
    ensures Column(Pack(cols), |cols|, c) == Column(Pack(cols[..|cols| - 1]), |cols| - 1, c)
  {
    var n := |cols|;
    assert Pack(cols) == Append(Pack(cols[..n - 1]), cols[n - 1]);
    AppendKeepsColumn(Pack(cols[..n - 1]), cols[n - 1], n - 1, c);
  }

  lemma AppendKeepsColumn(prefix: Matrix, last: seq<Slot>, n: nat, c: nat)
    requires WellFormed(prefix, n) && c < n
    ensures WellFormed(Append(prefix, last), n + 1)
    ensures Column(Append(prefix, last), n + 1, c) == Column(prefix, n, c)
  {
    var m := Append(prefix, last);
    assert prefix.indptr[c] <= prefix.indptr[c + 1] <= prefix.indptr[n];
    assert m.indptr[c] == prefix.indptr[c] && m.indptr[c + 1] == prefix.indptr[c + 1];
    KeptSlots(prefix.data, prefix.indices, last, prefix.indptr[c + 1]);
  }

  /** Appending slots leaves the first `bound` stored ones as they were. */
  lemma KeptSlots(data: seq<real>, indices: seq<int>, last: seq<Slot>, bound: nat)
    requires |data| == |indices| && bound <= |data|
    ensures forall k :: 0 <= k < bound ==>
              (indices + Rows(last))[k] == indices[k] && (data + Values(last))[k] == data[k]
  {
  }

  /** The appended column is read back as it was appended. */
  lemma PackLastColumn(cols: seq<seq<Slot>>)
    requires |cols| > 0
    ensures Column(Pack(cols), |cols|, |cols| - 1) == cols[|cols| - 1]
  {
    var n := |cols|;
    var prefix := Pack(cols[..n - 1]);
    var last := cols[n - 1];
    assert Pack(cols) == Append(prefix, last);
    AppendedSlots(prefix.data, prefix.indices, last);
  }

  /** Slots appended after `|data|` stored ones are read back in order. */
  lemma AppendedSlots(data: seq<real>, indices: seq<int>, last: seq<Slot>)
    requires |data| == |indices|
    ensures forall j :: 0 <= j < |last| ==>
              Slot((indices + Rows(last))[|data| + j], (data + Values(last))[|data| + j]) == last[j]
  {
  }

  /** Unpacking a packed matrix returns the columns it was packed from. */
  lemma PackColumns(cols: seq<seq<Slot>>)
    ensures Columns(Pack(cols), |cols|) == cols
  {
    forall c | 0 <= c < |cols| {
      PackColumn(cols, c);
    }
  }

  /** Column pointer `c` of a packed matrix counts the slots of the columns before `c`. */
  lemma {:induction false} PackPointer(cols: seq<seq<Slot>>, c: nat)
    requires c <= |cols|
    ensures Pack(cols).indptr[c] == SlotCount(cols[..c])
    decreases |cols|
  {
    var n := |cols|;
    if c < n {
      PackPointer(cols[..n - 1], c);
      assert cols[..n - 1][..c] == cols[..c];
    } else {
      assert cols[..c] == cols;
    }
  }

  /** Contribution of the stored slots of column `c` to x^T P x of the symmetric
      matrix P whose upper triangle is stored: a diagonal slot counts once, an
      off-diagonal slot stands for itself and its mirror image. */
  function SlotsForm(s: seq<Slot>, c: nat, x: seq<real>): real
    requires c < |x|
    requires forall j :: 0 <= j < |s| ==> 0 <= s[j].row < |x|
  {
    if |s| == 0 then 0.0
    else
      var r := s[0].row;
      (if r == c then s[0].value * x[c] * x[c] else 2.0 * s[0].value * x[r] * x[c])
        + SlotsForm(s[1..], c, x)
  }

  /** Sum of the contributions of the first `k` columns. */
  function ColumnsForm(cols: seq<seq<Slot>>, x: seq<real>, k: nat): real
    requires k <= |cols| <= |x|
    requires forall c, j :: 0 <= c < |cols| && 0 <= j < |cols[c]| ==> 0 <= cols[c][j].row < |x|
  {
    if k == 0 then 0.0 else ColumnsForm(cols, x, k - 1) + SlotsForm(cols[k - 1], k - 1, x)
  }

  /** x^T P x for the symmetric `n` x `n` matrix P whose upper triangle `m` stores. */
  function QuadForm(m: Matrix, n: nat, x: seq<real>): real
    requires WellFormed(m, n) && RowsBelow(m, n) && |x| == n
  {
    var cols := Columns(m, n);
    assert forall c, j :: 0 <= c < n && 0 <= j < |cols[c]| ==> 0 <= cols[c][j].row < n by {
      forall c, j | 0 <= c < n && 0 <= j < |cols[c]|
        ensures 0 <= cols[c][j].row < n
      {
        assert m.indptr[c] <= m.indptr[c + 1] <= m.indptr[n];
      }
    }
    ColumnsForm(cols, x, n)
  }

  /** The quadratic form of a packed matrix is the sum over the columns it was packed from. */
  lemma PackQuadForm(cols: seq<seq<Slot>>, x: seq<real>)
    requires |cols| == |x|
    requires forall c, j :: 0 <= c < |cols| && 0 <= j < |cols[c]| ==> 0 <= cols[c][j].row < |x|
    ensures RowsBelow(Pack(cols), |cols|)
    ensures QuadForm(Pack(cols), |cols|, x) == ColumnsForm(cols, x, |cols|)
  {
    PackRowsBelow(cols, |cols|);
    PackColumns(cols);
  }
}
